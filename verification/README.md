# Odyssey core agent: from a pipeline run to its rows in the results database

This project models one connected path of the agent and proves what its comments and decision
records promise about it:

1. **Execution.** `Orchestrator.Run` runs stages one after the other and stops at the first failed
   or errored one. The jobs of a stage run at the same time and publish lifecycle events.
   `DockerRunner` is the step machine of one job. What Docker answers, how long things take and
   what the clock shows are inputs (`StepWorld`, `JobWorld`, `RunWorld`), so a statement about every
   world is a statement about every outcome.
2. **Delivery.** `Consumer` reads the event stream through a Redis consumer group. The model is a
   state machine over single Redis commands and handler calls of any number of consumers; every
   command may fail before or after it took effect, consumers crash, the stream is trimmed.
3. **Recording.** `Store.Record` applies events to three tables with surrogate ids and unique keys.

`AtLeastOnce.RunsAreRecordedDespiteFaults` joins the three: runs interleave on one stream, a group
delivers it at least once, and the tables agree with what ran.

## Modules

| file | models |
|---|---|
| `Domain.dfy` | statuses, results and how they aggregate |
| `Runner.dfy`, `StepMachine.dfy`, `EnvFile.dfy` | the runner of one job, its step machine, the env file |
| `Jobs.dfy`, `Routines.dfy` | what a job publishes; its goroutine, step by step |
| `Orchestrator.dfy`, `Interleavings.dfy`, `Bus.dfy`, `Events.dfy` | runs, schedules, the bus as publishers see it |
| `Config.dfy`, `StringOrder.dfy` | validation and translation of a configuration |
| `Tables.dfy`, `Store.dfy` | the tables, and the store that updates them in place |
| `Cells.dfy`, `Replay.dfy` | what the tables say about one run, job and step; replaying logs, lost finishes |
| `Traces.dfy`, `Recording.dfy`, `Redelivery.dfy` | what runs publish, and what recording and redelivering it leaves |
| `RedisGroup.dfy`, `Delivery.dfy` | the group's commands; the machine of all consumers |
| `Tokens.dfy` | handler calls of any number of consumers |
| `Attempts.dfy`, `Recovery.dfy`, `PlainSums.dfy` | a lone consumer: attempts, recovery passes, the drain measure |
| `ConsumerLoop.dfy` | the consumer's own loop |
| `Witnesses.dfy`, `LostFinish.dfy` | reachable runs for what the code does not promise |
| `EndToEnd.dfy`, `AtLeastOnce.dfy` | runs, group and recorder together, without and with faults |
| `Basics.dfy`, `Numerals.dfy` | sequences; 64-bit integers and their decimal text |

The imperative parts of the source (store, runner, orchestrator, consumer, the aggregation loops,
validation, translation, the env file) are methods with loops and classes with fields. Each is
proved equal to a specification function, or to be a run of the delivery machine, and the theorems
are about those.

Two modelling devices need a word. A `Cell` is the tables seen from one key (run, job, step), with
surrogate ids gone: at most one run row, one job row, one step row. `RecordRefinesCell` shows that
recording on the tables is recording on each cell, and `SameCellsSameTables` that tables of which one
extends the other are equal once their cells are, so replay is proved cell by cell and claimed for
the tables. And
`Listing(m, hi)` is the content of a map from ids to envelopes in id order, which is stream order.

The theorems about traces and rows assume that no two jobs of a pipeline have the same name. That is
what translation gives: jobs are named by their keys, and `Config.TranslationPlacesJobs` puts every
key in exactly one place.

## Where the code and its comments disagree

The model follows the code. For each promise that fails there is an input, and the exact condition
under which the code keeps it.

- `internal/results/store.go:72` calls redelivered events no-ops. Replaying whole suffixes is
  (`Replay.RepeatedReplay`). A single event is one if and only if it has not been overwritten with
  something else (`Replay.RedeliveryExactly`). Every event of a stream is one if and only if, in every
  executed job, all results of one step name have the same columns (`Redelivery.HarmlessExactly`). A
  failed env read after a step breaks that (`Redelivery.StaleFinishExists`), and so do two steps of one
  name with different outcomes.
- `internal/results/store.go:198-200` relies on stream order. A finished event that arrives before its
  started event updates no row, is reported as success and acknowledged. In any log an accepted finish
  is lost if and only if its row was not in the database and no accepted started event had introduced
  it (`Replay.FinishIsLostExactly`). A lone consumer gets there when the reply to a read is lost or when
  it crashes on one: the run then stays pending for good, although no entry was lost
  (`LostFinish.LostReadLosesFinish`). Every other failing command is harmless
  (`AtLeastOnce.FaultsAreTolerated`).
- `internal/consumer/consumer.go:197-201` hands an entry that is no longer pending to the handler. The
  handler is called at most MaxAttempts times per entry, and once more for each look-up that found the
  entry off the pending list (`Tokens.CallsBounded`). A lone consumer has no such look-up
  (`Tokens.LoneConsumerIsNeverLate`); two consumers have, for every MaxAttempts
  (`Witnesses.TwoConsumersExceedTheBound`).

The sum of MaxAttempts + 1 - count over the pending entries is lowered by every recovery pass if and
only if more entries have a count of at most MaxAttempts than the exhausted ones are in excess of
MaxAttempts + 1 (`PlainSums.PlainSumExactly`). An entry whose dead-lettering failed leaves it where it
was (`PlainSums.PlainSumStalls`). `Recovery.Weight` counts such an entry as 1, and then every pass
lowers the sum (`Recovery.PassDecreases`).

## Model

| member | source | states |
|---|---|---|
| Domain.ComputeJobStatus | internal/domain/result.go:42-54 | the loop computes the worst of the job's leaves: its step statuses, Errored alone after a setup error, Pending for no steps |
| Domain.ComputeStageStatus | internal/domain/result.go:81-90 | the loop over already aggregated jobs computes the worst of all leaves below the stage |
| Domain.ComputePipelineStatus | internal/domain/result.go:106-115 | aggregating twice equals the worst of all leaves of the result tree |
| Domain.ComputeJobDuration | internal/domain/result.go:58-67 | the sum of the step durations, wrapped to 64 bits once |
| Domain.StatusCharacterised | internal/domain/result.go:104-139 | Errored iff some leaf is, Failed iff some leaf is and none is Errored, Passed iff every leaf is |
| Domain.PipelineStatusInWords | internal/domain/result.go:17-115 | from exit codes and faults alone: Errored iff some job's setup failed or some step hit a fault, else Failed iff some process exited non-zero, Passed iff there are stages, jobs and steps everywhere and every process exited zero, Pending otherwise |
| Domain.JobStatusInWords | internal/domain/result.go:17-54 | the same of one job |
| Domain.StageStatusInWords | internal/domain/result.go:81-90 | the same of one stage |
| Domain.Precedence | internal/domain/result.go:117-147 | Errored, Failed, Unknown, Running, Pending, Skipped, Passed, worst first, whichever argument comes first |
| Domain.TotalDurationAdds | internal/domain/result.go:62-66 | the total of two runs of steps is the sum of their totals, and of one step its own duration |
| Domain.PermutationInvariance | internal/domain/result.go:81-115 | the status does not depend on the order of stages, nor of jobs inside them |
| Domain.Monotonicity | internal/domain/result.go:81-147 | making leaves worse, one by one, never makes the pipeline's status better |
| Numerals.FormatParse | internal/runner/docker.go:319-325 | printing an integer and parsing it as the recorder does gives it back if and only if it fits 64 bits |
| Numerals.ParseIntExactly | internal/results/store.go:175-188 | a text is refused iff it is not an optionally signed run of decimal digits or its value does not fit 64 bits |
| EnvFile.ParseEnvFile | internal/runner/envfile.go:22-36 | the loop computes Parse: lines trimmed, cut at the first '=', later keys win |
| EnvFile.AppendOverlays | internal/runner/envfile.go:19-36 | parsing a, newline, b is parsing a overlaid by parsing b |
| EnvFile.ExportsAccumulate | internal/runner/envfile.go:8-22 | a file grown by appending steps parses to the overlay of what each of them exported |
| EnvFile.ParseIsClean | internal/runner/envfile.go:22-36 | parsing only ever yields keys without '=', newline or leading space and values without newline or trailing space |
| EnvFile.EnvSlice | internal/runner/envfile.go:39-48 | one KEY=value line for every variable, each once, in whatever order the map yields |
| EnvFile.WriteReadRoundTrip | internal/runner/envfile.go:22-48 | joining those lines and parsing them returns the map if and only if keys and values are clean |
| EnvFile.NewlyExportedKeys | internal/runner/envfile.go:52-61 | strictly sorted, and exactly the keys that are new or changed |
| EnvFile.ReportedKeysSuffice | internal/runner/envfile.go:50-61 | overlaying the reported keys on the old map gives the new one if and only if no key was removed |
| Runner.ReadExportedEnv | internal/runner/docker.go:337-346 | the parsed variables, or nothing if the read failed or exited non-zero |
| Runner.DockerRunner.Run | internal/runner/docker.go:65-121 | result and error are those of the world whatever the bus does, and there is a setup error iff image, container, a setup command or the env file failed; on a healthy bus exactly the job's step events appear, stamped and in order |
| Runner.SetupInWords | internal/runner/docker.go:68-110 | a job that cannot be set up carries the fault of the first thing that failed |
| Runner.DockerRunner.RunSetup | internal/runner/docker.go:187-205 | succeeds iff every setup command exits zero and the env file initialisation ran at all |
| Runner.DockerRunner.RunSteps | internal/runner/docker.go:207-300 | the loop with early returns is the step machine, in results, error and events |
| Runner.DockerRunner.RunOneStep | internal/runner/docker.go:210-298 | from Docker's answers alone: a process that exits gives its own code and texts, any other is a cancellation, a timeout with exit code 1 or a fault of the exec, and an unreadable env file is a result of its own |
| StepMachine.ResultsFollowDocker | internal/runner/docker.go:207-300 | every executed step's results, and the error the machine ends with, follow Docker's answers for that very step, and each step before the last ended without error |
| StepMachine.PassedExactly | internal/runner/docker.go:65-121 | a job is Passed iff it could be set up, has steps, and Docker reports exit code zero for every one and for every reading of the env file |
| StepMachine.ResultsNamePrefix | internal/runner/docker.go:207-300 | results name a prefix of the steps in order, only the last name may come twice, only the last result may carry a fault, and it shows why the machine stopped |
| StepMachine.JobStatusFollowsError | internal/runner/docker.go:112-121 | no error: one result per step, Passed iff all exited zero; timed out: Failed; any other error: Errored |
| StepMachine.EventsMatchResults | internal/runner/docker.go:211-224 | finished events match the results one to one, and each executed step has one started event, in order |
| StepMachine.OutputStaysOffTheBus | internal/runner/docker.go:313-333 | worlds that differ only in stdout and stderr publish the same events and end the same |
| Orchestrator.Orchestrator.RunStage | internal/orchestrator/orchestrator.go:127-179 | goroutines take their steps in any order; slot i holds job i's result under every schedule and every bus, a healthy bus shows an interleaving of the jobs' traces, a cancelled run still publishes every job's finished event |
| Routines.RoutineRunsJob | internal/orchestrator/orchestrator.go:138-165 | a goroutine, step by step, publishes exactly the trace of its job and then writes exactly what the runner returns |
| Orchestrator.Orchestrator.Run | internal/orchestrator/orchestrator.go:94-123 | the result does not depend on schedules or the bus and fails fast; a healthy bus is left a run trace; a cancelled run's last event is pipeline.finished with the result's status, after every executed job's finished event |
| Orchestrator.RunsFailFast | internal/orchestrator/orchestrator.go:103-110 | results belong in order to the first stages; no stage but the last has a job that failed to set up or a step with a fault or a non-zero exit, and the last has one if a stage is left out; no other number of stages is so |
| Orchestrator.ResultInWords | internal/orchestrator/orchestrator.go:96-111 | a run's result, field by field: its id, name and measured times, and in slot i of each stage the runner's result for job i |
| Interleavings.FilterMerge | internal/orchestrator/orchestrator.go:137-167 | in any interleaving, what one goroutine published is found back in its own order |
| Config.Validate | internal/config/models.go:44-100 | reports exactly the violations, whatever order the map yields its jobs in; no error iff the configuration is well-formed, in plain words |
| Config.ValidExactly | internal/config/models.go:44-100 | no violation iff stages are declared once and each has a job, and every job has a declared stage, an image and steps with names, commands and non-negative timeouts |
| Config.MergeEnv | internal/config/loader.go:97-103 | all keys of both; job-level values win |
| Config.Translate | internal/config/loader.go:58-93 | one stage per declared stage, by name and in order; in each exactly the configured jobs that name it, in key order, each with its own image, setup and steps and the variables of both levels, the job's own value winning |
| Config.TranslationIsDeterministic | internal/config/loader.go:59-63 | the pipeline does not depend on map order |
| Config.TranslationPlacesJobs | internal/config/loader.go:56-93 | a valid configuration gives a pipeline with no empty stage in which every job is in exactly one place, in its own stage, as configured field by field |
| Config.NeverEndsPending | internal/config/models.go:92-98 | whatever Docker answers, a pipeline translated from a valid configuration ends Passed, Failed or Errored |
| StringOrder.LessExactly | internal/config/loader.go:59-63 | keys are in lexicographic order: a proper prefix first, otherwise the first difference decides |
| Traces.TraceShape | internal/orchestrator/orchestrator.go:101-121 | in every interleaving pipeline.started comes first and only there, pipeline.finished last, stage blocks never overlap, and no job of a stage that was not executed appears |
| Traces.JobProjection | internal/orchestrator/orchestrator.go:138-153 | in every interleaving a job's own events are its trace: job.started, the step events in order, job.finished |
| Traces.JobTraceShape | internal/runner/docker.go:210-293 | a job's trace is job.started with its stage, then step.started and step.finished for each executed step in order, a second finish of the last one iff its env could not be read afterwards, then job.finished |
| Traces.RunTraceIsOrdered | internal/results/store.go:198-200 | in a run's trace every event comes after its own and its parents' started events, has readable numbers, and carries the run's id and pipeline |
| Traces.StreamIsAccepted | internal/results/store.go:167-222 | recording any interleaving of any number of runs in stream order never fails: no unknown parent, no bad number |
| Tables.RowsKeptAlways | internal/results/store.go:99-196 | over any log, rows stay where they are with their ids, keys, pipeline, stage and start time |
| Tables.StartedOverwritesNothing | internal/results/store.go:103-106 | a started event changes no existing row, so it never resets a finished one |
| Tables.RecordChangesOneRow | internal/results/store.go:99-196 | seen by names, a started event appends at most the one missing row, a finished event changes at most the one row that is there, a refused event changes nothing |
| Tables.IntegrityAlways | internal/results/migrations/00001_init.sql:6-35 | over any log, keys and ids stay unique, jobs refer to existing runs and steps to existing jobs |
| Store.Store.Record | internal/results/store.go:77-94 | the new tables and the error are those of the specification; an event that is refused changes nothing |
| Store.Store.RecordPipelineStarted | internal/results/store.go:99-111 | fails iff the run id is missing, and then changes nothing; else a run without a row gets one, pending, under a fresh id, and nothing else changes |
| Store.Store.RecordPipelineFinished | internal/results/store.go:113-121 | never fails; the one row of the run gets status and end, no other row of any table changes, and without such a row none does |
| Store.Store.RecordJobStarted | internal/results/store.go:123-136 | fails iff the run has no row, and then changes nothing; else a job without a row gets one under its run, and nothing else changes |
| Store.Store.RecordJobFinished | internal/results/store.go:138-150 | fails iff the run has no row; else the one row of that job of that run gets status and end, no other row changes, and without such a row none does |
| Store.Store.RecordStepStarted | internal/results/store.go:152-165 | fails iff run or job have no row, and then changes nothing; else a step without a row gets one under its job, and nothing else changes |
| Store.Store.RecordStepFinished | internal/results/store.go:167-196 | fails iff run or job have no row or a number is unreadable; else the one row of that step gets status, exit code and milliseconds, an absent number being NULL; without such a row none changes |
| Cells.RecordAllRefinesCell | internal/results/store.go:77-222 | recording on tables with surrogate ids is recording on each run-job-step cell |
| Cells.RowsAreCells | internal/results/migrations/00001_init.sql:15-35 | cells and rows determine each other: nothing in the tables is invisible to the cells |
| Replay.RunIsolation | internal/results/store.go:198-222 | a run's rows, and whether its next event is accepted, depend on its own events only |
| Replay.SameCellsSameTables | internal/results/migrations/00001_init.sql:6-35 | tables of which one extends the other are equal once every cell agrees |
| Replay.RecordTwice | internal/results/store.go:72-94 | from any state, recording an event twice is recording it once |
| Replay.SuffixReplay | internal/results/store.go:72-94 | for a log with parents first, recording any suffix again changes nothing, second finishes included |
| Replay.RepeatedReplay | internal/results/store.go:72-94 | nor does recording any number of suffixes one after the other |
| Replay.RowHoldsLastWriter | internal/results/store.go:113-121 | a finished row holds what the last event that wrote it said |
| Replay.RedeliveryExactly | internal/results/store.go:72-73 | redelivering one event of an ordered log is a no-op if and only if it has not been overwritten with something else since |
| Replay.FinishNeedsItsRow | internal/results/store.go:113-121 | an accepted finish of a run, job or step leaves its columns in its own row iff that row existed before; otherwise it changes nothing |
| Replay.RowsComeFromStarts | internal/results/store.go:103-106 | in any log, a run, job or step has a row iff it had one before or an accepted started event introduced it |
| Replay.FinishIsLostExactly | internal/results/store.go:189-195 | in any log, ordered or not, an accepted finish is lost iff neither the database nor an earlier accepted started event had its row |
| LostFinish.LostReadLosesFinish | internal/consumer/consumer.go:117-141 | a lone consumer that loses the reply to a read, or crashes on it, handles and acknowledges a run's finish before its start; no entry is lost, no recording fails, and the run's row stays pending whatever happens next |
| Recording.StreamRecorded | internal/results/store.go:77-196 | after recording any interleaving of runs with distinct ids, each run, job and step row is what ran: result status, stage, job status, and status, exit code and milliseconds of the step's last result; no other rows of those runs, and no other run's rows change |
| Recording.RowsInWords | internal/results/store.go:99-196 | the same in plain words: every row's names, times and texts; "passed", "failed", "errored" from exit codes and faults; exit code NULL iff -1; milliseconds cut toward zero; and which rows there are |
| Recording.StreamReplayed | internal/results/store.go:72-94 | the same after replaying any suffixes |
| Redelivery.StepFinishRedelivery | internal/results/store.go:189-195 | a step's finished event can be redelivered without effect if and only if it says what the step's last result says |
| Redelivery.OthersAreHarmless | internal/results/store.go:72-73 | every other event of recorded runs can be redelivered without effect |
| Redelivery.HarmlessExactly | internal/results/store.go:72-73 | every event of the stream can be redelivered without effect iff in every executed job all results of one step name have the same columns |
| Redelivery.OneRowPerStep | internal/results/migrations/00001_init.sql:34 | a job has one row per executed step if and only if those steps' names are distinct |
| RedisGroup.ListingIsExact | internal/consumer/consumer.go:117-141 | a page or batch is exactly the chosen entries, each once, in id order |
| RedisGroup.NextPending | internal/consumer/consumer.go:160-178 | the claim cursor is the first pending id not examined, or 0-0 at the end of the pending list |
| RedisGroup.EnvironmentInWords | internal/bus/bus.go:22-24 | publishing adds its entry, trimming removes entries and nothing else, time makes pending entries idle and nothing else |
| Delivery.Reachable | internal/consumer/consumer.go:108-276 | the delivery invariant holds in every state any number of consumers can reach under crashes, failures and trimming |
| Delivery.OutcomesInWords | internal/consumer/consumer.go:204-276 | a refused command leaves the group alone, one whose reply is lost does what a successful one does |
| Delivery.NoLoss | internal/consumer/consumer.go:223-248 | every entry the cursor has passed is pending, handled at least once, trimmed, or on the dead-letter stream under its id with its own text, which is empty only if the entry has none |
| Delivery.DeadLettersBelong | internal/consumer/consumer.go:186-248 | every dead letter carries the text of the entry it names; a well-formed event is dead-lettered only after more than MaxAttempts deliveries |
| Delivery.AckedForGood | internal/consumer/consumer.go:250-276 | once off the pending list an entry is delivered to no consumer again |
| Tokens.CallsBounded | internal/consumer/consumer.go:186-202 | any number of consumers call the handler with an entry at most MaxAttempts times and once more per look-up that found it off the pending list, and never more often than it was delivered |
| Tokens.LoneConsumerIsNeverLate | internal/consumer/consumer.go:197-201 | a lone consumer never looks up an entry that is off the pending list |
| Attempts.AttemptBound | internal/consumer/consumer.go:182-202 | with one consumer an entry's handler is called at most MaxAttempts times, and only while its delivery count is at most MaxAttempts, whatever fails |
| Witnesses.TwoConsumersExceedTheBound | internal/consumer/consumer.go:194-201 | for every MaxAttempts of at least 1 and every minimum idle time, a run of two consumers calls the handler MaxAttempts + 1 times |
| Recovery.PassCoversEverything | internal/consumer/consumer.go:154-180 | an error-free pass claims every entry eligible at its start exactly once, for any page boundaries and although entries leave mid-scan; what is still pending has attempts left |
| Recovery.PassDecreases | internal/consumer/consumer.go:159-202 | a pass over a non-empty pending list strictly lowers the measure, whatever the handler does |
| PlainSums.PlainSumExactly | internal/consumer/consumer.go:159-202 | every pass lowers the sum of MaxAttempts + 1 - count iff more entries have attempts left than the exhausted ones are in excess |
| PlainSums.PlainSumStalls | internal/consumer/consumer.go:208-216 | a reachable pass over one entry whose dead-lettering failed leaves that sum where it was |
| Recovery.Drained | internal/consumer/consumer.go:154-202 | after MaxAttempts rounds every entry that was pending is gone, and was handled, dead-lettered or trimmed |
| ConsumerLoop.Consumer.Run | internal/consumer/consumer.go:108-143 | the loop's commands are a run of the delivery machine, so it keeps the invariant and the attempt bound; if no command fails its rounds are those that drain the pending list; and once nothing new is published, as many rounds as there are unread ids read everything a prompt server has |
| ConsumerLoop.Consumer.RecoverStuck | internal/consumer/consumer.go:159-180 | terminates because the cursor strictly grows; if no command fails it covers every eligible entry |
| ConsumerLoop.Consumer.XAutoClaim | internal/consumer/consumer.go:162-171 | the page, of at most 64 entries, and the cursor of one claim; a cursor other than 0-0 lies strictly ahead |
| ConsumerLoop.Consumer.RecoverOne | internal/consumer/consumer.go:186-202 | an entry pending with more than MaxAttempts deliveries goes to the dead-letter stream and never to the handler, any other is handled; a failed check leaves handled entries, dead letters and the pending list alone |
| ConsumerLoop.Consumer.DeadLetter | internal/consumer/consumer.go:227-248 | the entry leaves the pending list only if its own text was copied to the dead-letter stream or it is no longer in the stream; no other entry leaves, no handler is called |
| ConsumerLoop.Consumer.DeadLetterEntry | internal/consumer/consumer.go:208-221 | the entry leaves the pending list only if its raw text was added to the dead-letter stream, and surely does if no command fails |
| ConsumerLoop.Consumer.Handle | internal/consumer/consumer.go:253-276 | a missing or malformed envelope is dead-lettered without a handler call; any other costs one handler call and leaves the pending list only if that call returned nil |
| EndToEnd.ServedInOrder | internal/consumer/consumer.go:117-141 | without faults the handler is given the stream in order, each entry once, and as the recorder returns no error to any call |
| EndToEnd.RunsAreRecorded | internal/results/store.go:198-200 | without faults the handled events are at any time a prefix of the stream, and once the consumer has caught up every row of every run agrees with what ran |
| AtLeastOnce.FaultsAreTolerated | internal/consumer/consumer.go:154-276 | a lone consumer whose claims, checks, dead-letter commands and acks may be refused or lost, and reads refused: first calls follow the stream in order, every other call repeats one, and the recorder refuses none |
| AtLeastOnce.RunsAreRecordedDespiteFaults | internal/results/store.go:72-76 | then, if results of one step name agree, the tables are at every moment those of recording the entries called so far once; and once the consumer has caught up every row agrees with what ran |
| AtLeastOnce.LoopLeavesWhatRan | internal/consumer/consumer.go:108-143 | so do the rows after the loop's rounds, once they have read everything |

## Left out

- Redis, Docker, SQLite, goose, gRPC and TOML clients: their commands are explicit state transitions or inputs. SQL errors of the engine itself are not modelled.
- The XAUTOCLAIM contract is stated once, in `RedisGroup.Claim`: a claim examines the pending list from its start to a bound of the server's choosing, bumps counts, resets idle times, drops entries no longer in the stream. Nothing else is assumed about page sizes.
- JSON: an envelope is missing, malformed or an event, which is all that handling branches on. Payload text other than what the code reads is opaque.
- Wall-clock text: timestamps are opaque, and nothing is claimed about sorting them as text. The steps table's reserved payload column is never written and is not modelled.
- `internal/consumer/consumer.go:71-100`: the defaults for zero options and the rejection of missing ones. `ensureGroup` is the initial state, a group at the beginning of a stream that may already hold entries. Read backoff, long-poll blocking, loggers and shutdown wiring are left out; a cancelled context is a crash.
- Run ids are inputs, assumed non-empty and distinct where a theorem says so.
- Orchestrator.Orchestrator.RunStage: a goroutine takes one step for each event it publishes and one to write its slot; what the runner does between two publications is not interleaved further. The errgroup's own context is never cancelled by a sibling, as every goroutine returns nil.
- Step events of cancelled runs: published under the cancellable context, they may be lost; only job and pipeline finishes are claimed then.
- EndToEnd.ServedInOrder: for runs without any fault; with faults entries are handled more than once, see `AtLeastOnce.FaultsAreTolerated`.
- EndToEnd.RunsAreRecorded: likewise; it needs no agreement of results, which with faults it would.
- AtLeastOnce.FaultsAreTolerated: one consumer, no lost read, no crash, no trimming. A lost read or a crash can lose a finish, as `LostFinish.LostReadLosesFinish` shows; an entry trimmed before it is read is not recorded.
- Recovery.PassCoversEverything: an entry trimmed from the stream during or before the pass is dropped instead of claimed.
- Attempts.AttemptBound: for one consumer; `Tokens.CallsBounded` is for any number.
- Image pull, container create and remove, archive upload, teardown, `projectPathAllowed`, `internal/server`, generated code: plumbing or field copying.
- Strings are sequences of characters: no invalid UTF-8, and white space is the set that Go's `strings.TrimSpace` trims.
