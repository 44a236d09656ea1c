/** The event records that flow in and out of the processor, the records it
    synthesizes, and the two ways a run can fail. */
module Records {
  import opened Wrappers
  import opened Stations

  /** Keys of a record that the processor never reads, kept so that
      "passed through unchanged" compares whole records. */
  type Extra = map<string, string>

  /** One input record. Each field is what a lenient key lookup returns:
      `None` when the key is missing or its value is null. */
  datatype Record = Record(
    typ: Option<string>,
    stationName: Option<string>,
    temperature: Option<real>,
    timestamp: Option<int>,
    command: Option<string>,
    extra: Extra)

  /** One output element: an input record passed through, or a synthesized
      `snapshot` / `reset` event. */
  datatype Output =
    | Passed(record: Record)
    | SnapshotOut(asOf: int, stations: StationMap)
    | ResetOut(asOf: int)
  {
    predicate Synthesized() {
      !Passed?
    }
  }

  /** The two fatal errors; each carries the offending value. */
  datatype Error =
    | UnknownEventType(typ: string)
    | InvalidCommand(command: Option<string>)

  const SampleType: string := "sample"
  const ControlType: string := "control"
  const SnapshotCommand: string := "snapshot"
  const ResetCommand: string := "reset"

  predicate IsSample(r: Record) {
    r.typ == Some(SampleType)
  }

  predicate IsControl(r: Record) {
    r.typ == Some(ControlType)
  }

  /** No `type` key, or `type` is null. */
  predicate IsUntyped(r: Record) {
    r.typ.None?
  }

  /** A `type` value that is neither `sample` nor `control`. */
  predicate IsUnknownType(r: Record) {
    r.typ.Some? && !IsSample(r) && !IsControl(r)
  }

  predicate IsSnapshot(r: Record) {
    IsControl(r) && r.command == Some(SnapshotCommand)
  }

  predicate IsReset(r: Record) {
    IsControl(r) && r.command == Some(ResetCommand)
  }

  /** A control record whose command is missing or neither `snapshot` nor `reset`. */
  predicate IsBadControl(r: Record) {
    IsControl(r) && !IsSnapshot(r) && !IsReset(r)
  }

  /** A station name counts only when present and non-empty (Python truthiness). */
  predicate ValidName(name: Option<string>) {
    name.Some? && |name.value| > 0
  }

  /** A sample whose reading is recorded: a non-empty station name and a
      temperature that is present; 0 and negative readings qualify. */
  predicate IsValidSample(r: Record) {
    IsSample(r) && ValidName(r.stationName) && r.temperature.Some?
  }

  /** The records that an output sequence passes through, in order. */
  function Originals(out: seq<Output>): (rs: seq<Record>)
    ensures |rs| <= |out|
  {
    if |out| == 0 then []
    else
      var rest := Originals(out[1..]);
      if out[0].Passed? then [out[0].record] + rest else rest
  }

  /** A record is passed through iff it is among the originals. */
  lemma {:induction false} OriginalsMembership(out: seq<Output>, r: Record)
    ensures r in Originals(out) <==> Passed(r) in out
  {
    if |out| > 0 {
      OriginalsMembership(out[1..], r);
      assert Passed(r) in out <==> out[0] == Passed(r) || Passed(r) in out[1..];
    }
  }

  lemma {:induction false} OriginalsAppend(a: seq<Output>, b: seq<Output>)
    ensures Originals(a + b) == Originals(a) + Originals(b)
  {
    if |a| == 0 {
      assert a + b == b;
    } else {
      assert (a + b)[1..] == a[1..] + b;
      OriginalsAppend(a[1..], b);
    }
  }
}
