# Weather event stream processor

A Dafny model of `process_events` in `interview/weather.py` and its helpers.
The processor reads an ordered stream of event records and writes them back
out, interleaved with events it synthesizes. While it runs it keeps two
pieces of state:

- for every station, the `{high, low}` range of the temperatures seen since
  the last reset;
- the timestamp of the most recent sample that carried one.

It handles each record by its `type`:

- `sample` records update the state and are passed through;
- `control` records with command `reset` emit a reset event and then the
  record itself;
- `control` records with command `snapshot` emit a snapshot first only when
  some station has a range and a timestamp has been seen, and then the
  record itself;
- records without a `type` pass through untouched;
- an unknown command or an unknown type ends the run with an error.

The model is functional. `Processor.Step` is one record's effect.
`Processor.Run` folds it over a sequence. On an error, the run returns the
output of the preceding records together with the error.
`Processor.ProcessEvents` is the whole processor. `Processor.ProcessEventsLoop`
is the same computation written as a loop.

Modules:

- `Wrappers`: `Option`, used for fields that are missing or null.
- `Stations`: `Range`, the station map, and the range update.
- `Records`: input records, output events and the two errors.
- `Processor`: state, the per-record handlers, `Step`, `Run` and `ProcessEvents`.
- `Properties`: lemmas about whole runs: composition, pass-through, ordering, cut-off on errors, resets.
- `Epoch`: an independent definition of the state from the record history.
  It proves that the accumulated ranges are the extremes of the readings since the last reset.
- `Scenarios`: the repository's test inputs and worked examples, each with its exact output.

A record is one datatype, `Record`, with a field for each key the processor
reads. Each field is `None` when its key is missing or null. All other keys
go in `extra`. This makes "passed through unchanged" compare whole records.
It also gives meaning to the rule that an untyped record passes through even
when it has `command` or `temperature` keys. Temperatures are `real`.
Timestamps are `int`, which is unbounded like Python's.

## Model

| member | source | states |
|---|---|---|
| Stations.UpdateStation | interview/weather.py:21-30 | An unseen station gets `[t, t]`. A known station gets the smallest range covering its old range and `t`: each bound is either unchanged or `t`, and the range only widens. All other stations are unchanged and the only key added is the station's. |
| Stations.UpdateKeepsWellFormed | interview/weather.py:21-30 | The update keeps `low <= high` for every station. |
| Stations.UpdateInsideRangeIsNoOp | interview/weather.py:27-30 | The comparisons are strict, so a reading already inside a known station's range leaves the whole map equal to what it was. |
| Stations.UpdateIdempotent | interview/weather.py:27-30 | Updating twice with the same reading gives the same map as updating once. |
| Processor.ProcessSample | interview/weather.py:4-19 | A present timestamp always becomes the last timestamp, even for an invalid sample. An absent timestamp keeps the old one. The station's range is updated only when the name is non-empty and the temperature is present, so 0 and negative readings count. Otherwise the ranges are untouched. |
| Processor.HandleSnapshot | interview/weather.py:47-58 | Emits at most one event. It emits one exactly when there is at least one station and a timestamp has been seen. That event is a snapshot of the current ranges as of the last timestamp. |
| Processor.HandleReset | interview/weather.py:61-72 | Always emits one reset event, as of the last timestamp or 0 when none was seen. It clears the ranges and keeps the last timestamp. |
| Processor.ProcessControl | interview/weather.py:33-44 | Fails exactly when the command is neither `snapshot` nor `reset` (a missing command included). The error names the command. `snapshot` leaves the state unchanged. |
| Processor.Step | interview/weather.py:83-98 | Fails exactly for an unknown type or a bad control command, with the matching error. Otherwise the record itself is emitted last, after only synthesized events. Non-control records emit only themselves. Only a sample changes the last timestamp. Only a valid sample or a reset changes the ranges. |
| Processor.Run | interview/weather.py:83-98 | The fold of `Step` over the records, stopping at the first error. It carries no contract of its own; its facts are proved in `Processor.RunConsumesInOrder`, `Properties.RunAppend` and `Properties.ErrorIsPrefix`. |
| Processor.ProcessEvents | interview/weather.py:75-98 | Empty input gives empty output and no error. Without an error, the records passed through are exactly the input, in order. With an error, fewer records come out than went in. |
| Processor.RunConsumesInOrder | interview/weather.py:83-98 | In any run, the passed-through records are the input in order when there is no error, and a strict prefix of the input, the records before the failing one, when there is one. |
| Processor.RunKeepsWellFormed | interview/weather.py:21-30 | A run keeps `low <= high` for every station. |
| Processor.ProcessEventsLoop | interview/weather.py:75-98 | The loop, which stops at the first error, computes the same output and error as the fold. |
| Properties.RunAppend | interview/weather.py:83-98 | A run over `a + b` is a run over `a` followed, when `a` raised no error, by a run over `b` from the state `a` left. On an error in `a`, `b` is never looked at. |
| Properties.PassThrough | interview/weather.py:83-98 | A stream of only samples and untyped records raises no error. Its output equals the input element for element and in order. |
| Properties.UntypedPassThrough | interview/weather.py:92-95 | An untyped record is emitted unchanged and leaves the state as it was, whatever other fields it carries. |
| Properties.ErrorIsPrefix | interview/weather.py:83-98 | A failed run has a failing position `k`. The output is exactly the error-free output of the records before `k`, and the error is the one raised by record `k`. |
| Properties.UnknownTypeCutsOff | interview/weather.py:89-91 | A record with a non-null type other than `sample`/`control` ends the run with an error naming that type. The output is exactly what the preceding records produced, and nothing after it is processed. |
| Properties.InvalidCommandCutsOff | interview/weather.py:43-44 | A control record with a command other than `snapshot`/`reset` ends the run with an error naming the command. Nothing after it is processed, and the record itself is not emitted unless it occurred earlier. |
| Properties.SnapshotInStream | interview/weather.py:39-58 | Inside a stream, a snapshot control emits the snapshot (only if there are stations and a timestamp), then the control record. The rest of the stream continues from the same state. |
| Properties.ResetInStream | interview/weather.py:41-72 | Inside a stream, a reset control emits a reset event as of the last timestamp or 0, then the control record. The rest of the stream continues with no stations and the same timestamp. |
| Properties.EmptyStaysEmpty | interview/weather.py:17-18 | With no stations, records that are not valid samples keep the ranges empty and synthesize no snapshot. |
| Properties.ResetSilencesSnapshots | interview/weather.py:47-72 | After a reset, no snapshot is emitted until a valid sample arrives. |
| Properties.SynthesizedPrecedesControl | interview/weather.py:85-98 | Every synthesized event is immediately followed in the output by the control record that caused it: a snapshot by a `snapshot` control, a reset by a `reset` control. |
| Properties.SnapshotsWellFormed | interview/weather.py:52-57 | Every emitted snapshot has at least one station, and every range in it has `low <= high`. |
| Epoch.RunSummarizesEpoch | interview/weather.py:4-30 | After an error-free run from the start, the last timestamp is the one from the latest sample that carried a timestamp. The stations are exactly those with readings since the last reset. Each range is the highest and lowest of those readings. |
| Epoch.SnapshotReportsEpoch | interview/weather.py:47-58 | A snapshot control after a prefix with a timestamp and a reading since the last reset emits a snapshot right before the control record. The snapshot is as of the latest timestamp and holds exactly the extremes of each station's readings since that reset. |
| Epoch.SnapshotSuppressed | interview/weather.py:51-52 | With no timestamp seen or no reading since the last reset, a snapshot control is emitted with nothing before it. |
| Scenarios.InvalidSamplesPassThrough | interview/weather_test.py:21-30 | Samples missing a name or a temperature still pass through. Only the valid one is recorded. |
| Scenarios.ZeroAndNegativeReadings | interview/weather_test.py:33-41 | Readings 0, -10.5 and -5 pass through and leave the range `[-10.5, 0]`. |
| Scenarios.StatusRecordIsRejected | interview/weather.py:89-91 | On the input of the test at interview/weather_test.py:10-18, the code raises an unknown-type error naming `status` after emitting the first sample. This is not the pass-through that test expects. |
| Scenarios.SnapshotExample | interview/weather.py:47-58 | Samples A 25 at time 1000, A 30 at 2000 and B 15 at 3000, then a snapshot. The output is the three samples, then a snapshot as of 3000 with A `[25, 30]` and B `[15, 15]`, then the control record. |
| Scenarios.LoneSnapshotExample | interview/weather.py:51-52 | A snapshot with nothing recorded emits only itself. |
| Scenarios.ResetExample | interview/weather.py:61-72 | A sample at 1000, then a reset, then a snapshot. The output is the sample, a reset as of 1000, the reset control, and the snapshot control with no snapshot emitted. |
| Scenarios.LoneResetExample | interview/weather.py:66-69 | A reset before any timestamp reports 0. |
| Scenarios.BogusExamples | interview/weather.py:83-91 | A `bogus` command and a `bogus` type each end the run with the matching error and no output. |
| Scenarios.UntypedExample | interview/weather.py:92-95 | An untyped record carrying a `reset` command, a station and a temperature passes through unchanged. |

## Left out

- Lazy generator evaluation (`yield`, `yield from`, pull-driven consumption) is not modelled. The model computes the whole output, or the output up to the error. The order of emitted events is the same.
- Error message wording and the use of `ValueError` are not modelled. An error is its kind and the offending value.
- Float semantics are not modelled. Temperatures are `real`, and the code only uses `<`, `>` and presence tests. NaN is excluded.
- The emitted snapshot at interview/weather.py:56 is a shallow copy, and this is not modelled. `dict(stations)` copies only the outer map, and the inner `{high, low}` dicts stay shared. A later in-place update at lines 28 and 30 therefore also changes a snapshot the consumer still holds. In the model every snapshot is a point-in-time value, so a later reading never changes a snapshot already emitted.
- The order of stations in an emitted snapshot is not modelled. `dict(stations)` at interview/weather.py:56 keeps insertion order, which a consumer that iterates or serializes the snapshot sees. `SnapshotOut.stations` is a `map`, which has no order.
- Dynamic typing of record fields is not modelled. `type`, `stationName` and `command` are strings when present. `temperature` is a number and `timestamp` is an integer. Truthiness of a station name is reduced to "non-empty". A `type` or `command` value of another Python type is out of scope. Values of unread keys are modelled as strings.
- The test at interview/weather_test.py:10-18 expects a `status` record to pass through. The code at interview/weather.py:89-91 raises on it. The model follows the code (`Scenarios.StatusRecordIsRejected`).
- The test at interview/weather_test.py:44-50 checks Python's iterator protocol. It says nothing about behaviour.
