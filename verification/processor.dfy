/** The stream processor: a left-to-right pass over the input records that
    carries the station ranges and the most recent sample timestamp. */
module Processor {
  import opened Wrappers
  import opened Stations
  import opened Records

  /** What a run accumulates: the ranges of the current epoch and the last
      timestamp carried by a sample, if any. */
  datatype State = State(stations: StationMap, lastTimestamp: Option<int>)

  const Initial: State := State(map[], None)

  /** The effect of one input record: what it emits, in order, and the state
      afterwards; or the error that ends the run. */
  datatype StepResult =
    | Emit(out: seq<Output>, next: State)
    | Fail(error: Error)

  /** A run over a sequence of records: everything emitted, the error that
      stopped it (if any), and the state when it stopped. On an error, the
      output is what the records before the failing one produced and
      `final` is the state in which the failing record was met. */
  datatype Trace = Trace(output: seq<Output>, error: Option<Error>, final: State)

  /** What the caller of a run observes: the emitted records and the error. */
  datatype Outcome = Outcome(output: seq<Output>, error: Option<Error>)

  /** A sample: a present timestamp always becomes the last timestamp, even
      when the rest of the sample is unusable; the station's range is
      updated only for a non-empty name with a present temperature. */
  function ProcessSample(s: State, r: Record): (s': State)
    ensures r.timestamp.Some? ==> s'.lastTimestamp == r.timestamp
    ensures r.timestamp.None? ==> s'.lastTimestamp == s.lastTimestamp
    ensures ValidName(r.stationName) && r.temperature.Some? ==>
      s'.stations == UpdateStation(s.stations, r.stationName.value, r.temperature.value)
    ensures !(ValidName(r.stationName) && r.temperature.Some?) ==> s'.stations == s.stations
  {
    var ts := if r.timestamp.Some? then r.timestamp else s.lastTimestamp;
    var stations :=
      if ValidName(r.stationName) && r.temperature.Some?
      then UpdateStation(s.stations, r.stationName.value, r.temperature.value)
      else s.stations;
    State(stations, ts)
  }

  /** The `snapshot` command: one synthesized snapshot of the current ranges,
      as of the last timestamp, exactly when there is at least one station
      and a timestamp has been seen; otherwise nothing. */
  function HandleSnapshot(s: State): (out: seq<Output>)
    ensures |out| <= 1
    ensures out != [] <==> (s.stations != map[] && s.lastTimestamp.Some?)
    ensures out != [] ==> out[0] == SnapshotOut(s.lastTimestamp.value, s.stations)
  {
    if s.stations != map[] && s.lastTimestamp.Some? then
      [SnapshotOut(s.lastTimestamp.value, s.stations)]
    else
      []
  }

  /** The `reset` command: always one synthesized reset event, as of the last
      timestamp or 0 when none was seen; the ranges are cleared and the last
      timestamp is kept. */
  function HandleReset(s: State): (e: StepResult)
    ensures e.Emit?
    ensures e.out == [ResetOut(s.lastTimestamp.GetOr(0))]
    ensures s.lastTimestamp.None? ==> e.out[0].asOf == 0
    ensures e.next.stations == map[]
    ensures e.next.lastTimestamp == s.lastTimestamp
  {
    Emit([ResetOut(s.lastTimestamp.GetOr(0))], State(map[], s.lastTimestamp))
  }

  /** A control record: the synthesized events of its command, or an error
      naming the command when it is neither `snapshot` nor `reset`. */
  function ProcessControl(s: State, r: Record): (e: StepResult)
    ensures e.Fail? <==> r.command != Some(SnapshotCommand) && r.command != Some(ResetCommand)
    ensures e.Fail? ==> e.error == InvalidCommand(r.command)
    ensures r.command == Some(SnapshotCommand) ==> e == Emit(HandleSnapshot(s), s)
    ensures r.command == Some(ResetCommand) ==> e == HandleReset(s)
  {
    if r.command == Some(SnapshotCommand) then
      Emit(HandleSnapshot(s), s)
    else if r.command == Some(ResetCommand) then
      HandleReset(s)
    else
      Fail(InvalidCommand(r.command))
  }

  /** One record of the stream. Samples and valid controls are followed in
      the output by the record itself, after whatever the control
      synthesized; untyped records pass through and change nothing; any
      other type is an error. */
  function Step(s: State, r: Record): (e: StepResult)
    ensures e.Fail? <==> IsUnknownType(r) || IsBadControl(r)
    ensures e.Fail? && IsUnknownType(r) ==> e.error == UnknownEventType(r.typ.value)
    ensures e.Fail? && IsBadControl(r) ==> e.error == InvalidCommand(r.command)
    ensures e.Emit? ==> |e.out| > 0 && e.out[|e.out| - 1] == Passed(r)
    ensures e.Emit? ==> forall i :: 0 <= i < |e.out| - 1 ==> e.out[i].Synthesized()
    ensures e.Emit? && !IsControl(r) ==> e.out == [Passed(r)]
    ensures e.Emit? && s.lastTimestamp.Some? ==> e.next.lastTimestamp.Some?
    ensures !IsSample(r) && e.Emit? ==> e.next.lastTimestamp == s.lastTimestamp
    ensures !IsValidSample(r) && !IsReset(r) && e.Emit? ==> e.next.stations == s.stations
  {
    if IsSample(r) then
      Emit([Passed(r)], ProcessSample(s, r))
    else if IsControl(r) then
      match ProcessControl(s, r)
      case Fail(err) => Fail(err)
      case Emit(synth, next) => Emit(synth + [Passed(r)], next)
    else if r.typ.Some? then
      Fail(UnknownEventType(r.typ.value))
    else
      Emit([Passed(r)], s)
  }

  /** Folds `Step` over the records, stopping at the first error. */
  function Run(s: State, rs: seq<Record>): Trace
    decreases |rs|
  {
    if |rs| == 0 then
      Trace([], None, s)
    else
      match Step(s, rs[0])
      case Fail(err) => Trace([], Some(err), s)
      case Emit(out, next) => Prepend(out, Run(next, rs[1..]))
  }

  /** The outputs `out` followed by the trace `t`. */
  function Prepend(out: seq<Output>, t: Trace): Trace {
    Trace(out + t.output, t.error, t.final)
  }

  /** One unfolding of `Run`. */
  lemma RunUnfold(s: State, rs: seq<Record>)
    requires |rs| > 0
    ensures Step(s, rs[0]).Fail? ==> Run(s, rs) == Trace([], Some(Step(s, rs[0]).error), s)
    ensures Step(s, rs[0]).Emit? ==>
      Run(s, rs) == Prepend(Step(s, rs[0]).out, Run(Step(s, rs[0]).next, rs[1..]))
  {
  }

  /** The whole processor: a run from empty state. Empty input gives empty
      output; without an error, the input is recovered from the output. */
  function ProcessEvents(rs: seq<Record>): (o: Outcome)
    ensures |rs| == 0 ==> o == Outcome([], None)
    ensures o.error.None? ==> Originals(o.output) == rs
    ensures o.error.Some? ==> |Originals(o.output)| < |rs|
  {
    RunConsumesInOrder(Initial, rs);
    var t := Run(Initial, rs);
    Outcome(t.output, t.error)
  }

  /** Every record a run consumes appears in its output exactly once and in
      input order: all of them when no error is raised, and otherwise a
      strict prefix of the input, the records before the failing one. */
  lemma {:induction false} RunConsumesInOrder(s: State, rs: seq<Record>)
    ensures Run(s, rs).error.None? ==> Originals(Run(s, rs).output) == rs
    ensures Run(s, rs).error.Some? ==> |Originals(Run(s, rs).output)| < |rs|
    ensures Run(s, rs).error.Some? ==>
      exists k :: 0 <= k < |rs| && Originals(Run(s, rs).output) == rs[..k]
    decreases |rs|
  {
    if |rs| > 0 {
      RunUnfold(s, rs);
      var step := Step(s, rs[0]);
      if step.Fail? {
        assert Originals(Run(s, rs).output) == rs[..0];
      } else {
        var rest := Run(step.next, rs[1..]);
        RunConsumesInOrder(step.next, rs[1..]);
        OriginalsAppend(step.out, rest.output);
        StepOriginals(s, rs[0]);
        assert rs == [rs[0]] + rs[1..];
        if rest.error.Some? {
          var k :| 0 <= k < |rs[1..]| && Originals(rest.output) == rs[1..][..k];
          assert [rs[0]] + rs[1..][..k] == rs[..k + 1];
        }
      }
    }
  }

  /** A run preserves `low <= high` for every station. */
  lemma {:induction false} RunKeepsWellFormed(s: State, rs: seq<Record>)
    requires AllWellFormed(s.stations)
    ensures AllWellFormed(Run(s, rs).final.stations)
    decreases |rs|
  {
    if |rs| > 0 {
      RunUnfold(s, rs);
      var step := Step(s, rs[0]);
      if step.Emit? {
        StepKeepsWellFormed(s, rs[0]);
        RunKeepsWellFormed(step.next, rs[1..]);
      }
    }
  }

  /** One step passes exactly its own record through. */
  lemma StepOriginals(s: State, r: Record)
    requires Step(s, r).Emit?
    ensures Originals(Step(s, r).out) == [r]
  {
    var out := Step(s, r).out;
    var synth := out[..|out| - 1];
    assert out == synth + [Passed(r)];
    OriginalsAppend(synth, [Passed(r)]);
    NoOriginals(synth);
  }

  lemma {:induction false} NoOriginals(out: seq<Output>)
    requires forall i :: 0 <= i < |out| ==> out[i].Synthesized()
    ensures Originals(out) == []
  {
    if |out| > 0 {
      NoOriginals(out[1..]);
    }
  }

  /** One step preserves `low <= high` for every station. */
  lemma StepKeepsWellFormed(s: State, r: Record)
    requires Step(s, r).Emit?
    ensures AllWellFormed(s.stations) ==> AllWellFormed(Step(s, r).next.stations)
  {
    if IsValidSample(r) && AllWellFormed(s.stations) {
      UpdateKeepsWellFormed(s.stations, r.stationName.value, r.temperature.value);
    }
  }

  /** The processor as a loop over the input, one step per record, stopping
      at the first error; it agrees with the functional definition. */
  method ProcessEventsLoop(rs: seq<Record>) returns (output: seq<Output>, error: Option<Error>)
    ensures Outcome(output, error) == ProcessEvents(rs)
  {
    var state := Initial;
    output := [];
    error := None;
    var i := 0;
    while i < |rs|
      invariant 0 <= i <= |rs|
      invariant error.None?
      invariant Run(Initial, rs) == Prepend(output, Run(state, rs[i..]))
    {
      assert rs[i..][1..] == rs[i + 1..];
      RunUnfold(state, rs[i..]);
      var step := Step(state, rs[i]);
      if step.Fail? {
        assert output + [] == output;
        error := Some(step.error);
        return;
      }
      assert output + (step.out + Run(step.next, rs[i + 1..]).output)
        == (output + step.out) + Run(step.next, rs[i + 1..]).output;
      output := output + step.out;
      state := step.next;
      i := i + 1;
    }
    assert output + [] == output;
  }
}
