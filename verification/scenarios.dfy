/** Concrete runs: the repository's own test inputs and worked examples of
    the processor's behaviour, each with its exact output. */
module Scenarios {
  import opened Wrappers
  import opened Stations
  import opened Records
  import opened Processor
  import opened Properties

  function SampleOf(name: Option<string>, temp: Option<real>, ts: Option<int>): Record {
    Record(Some(SampleType), name, temp, ts, None, map[])
  }

  function ControlOf(cmd: string): Record {
    Record(Some(ControlType), None, None, None, Some(cmd), map[])
  }

  /** Samples missing a station name or a temperature are still passed
      through, and only the valid one is recorded. */
  lemma InvalidSamplesPassThrough()
    ensures var rs := [
        SampleOf(None, Some(25.0), None),
        SampleOf(Some("Station1"), None, None),
        SampleOf(Some("Station2"), None, None),
        SampleOf(Some("Station3"), Some(20.0), None)];
      && ProcessEvents(rs) == Outcome([Passed(rs[0]), Passed(rs[1]), Passed(rs[2]), Passed(rs[3])], None)
      && Run(Initial, rs).final.stations == map["Station3" := Range(20.0, 20.0)]
  {
    var rs := [
      SampleOf(None, Some(25.0), None),
      SampleOf(Some("Station1"), None, None),
      SampleOf(Some("Station2"), None, None),
      SampleOf(Some("Station3"), Some(20.0), None)];
    PassThrough(Initial, rs);
    var t := Run(Initial, rs);
    assert t.output == [Passed(rs[0]), Passed(rs[1]), Passed(rs[2]), Passed(rs[3])];
  }

  /** Zero and negative readings are valid: they are passed through and
      widen the station's range. */
  lemma ZeroAndNegativeReadings()
    ensures var rs := [
        SampleOf(Some("Station1"), Some(0.0), None),
        SampleOf(Some("Station1"), Some(-10.5), None),
        SampleOf(Some("Station1"), Some(-5.0), None)];
      && ProcessEvents(rs) == Outcome([Passed(rs[0]), Passed(rs[1]), Passed(rs[2])], None)
      && Run(Initial, rs).final.stations == map["Station1" := Range(0.0, -10.5)]
  {
    var rs := [
      SampleOf(Some("Station1"), Some(0.0), None),
      SampleOf(Some("Station1"), Some(-10.5), None),
      SampleOf(Some("Station1"), Some(-5.0), None)];
    PassThrough(Initial, rs);
    var t := Run(Initial, rs);
    assert t.output == [Passed(rs[0]), Passed(rs[1]), Passed(rs[2])];
  }

  /** A record of type `status` is not passed through: the run stops with
      an error naming the type after emitting only the first sample. */
  lemma StatusRecordIsRejected()
    ensures var rs := [
        SampleOf(Some("Station1"), Some(25.0), None),
        Record(Some("status"), None, None, None, None, map["message" := "system online"]),
        SampleOf(Some("Station2"), Some(15.0), None)];
      ProcessEvents(rs) == Outcome([Passed(rs[0])], Some(UnknownEventType("status")))
  {
    var s0 := SampleOf(Some("Station1"), Some(25.0), None);
    var status := Record(Some("status"), None, None, None, None, map["message" := "system online"]);
    var s2 := SampleOf(Some("Station2"), Some(15.0), None);
    assert [s0, status, s2] == [s0] + [status] + [s2];
    PassThrough(Initial, [s0]);
    UnknownTypeCutsOff(Initial, [s0], status, [s2]);
  }

  /** Station A read at 25 then 30, station B at 15, at timestamps 1000,
      2000 and 3000. */
  function ThreeSamples(): seq<Record> {
    [SampleOf(Some("A"), Some(25.0), Some(1000)),
     SampleOf(Some("A"), Some(30.0), Some(2000)),
     SampleOf(Some("B"), Some(15.0), Some(3000))]
  }

  lemma ThreeSamplesState()
    ensures Run(Initial, ThreeSamples()).final ==
      State(map["A" := Range(30.0, 25.0), "B" := Range(15.0, 15.0)], Some(3000))
  {
    var pre := ThreeSamples();
    var s1 := State(map["A" := Range(25.0, 25.0)], Some(1000));
    var s2 := State(map["A" := Range(30.0, 25.0)], Some(2000));
    var s3 := State(map["A" := Range(30.0, 25.0), "B" := Range(15.0, 15.0)], Some(3000));
    RunUnfold(Initial, pre);
    assert Step(Initial, pre[0]).next == s1;
    RunUnfold(s1, pre[1..]);
    assert Step(s1, pre[1]).next == s2;
    RunUnfold(s2, pre[2..]);
    assert Step(s2, pre[2]).next == s3;
  }

  /** Two stations sampled at three timestamps, then a snapshot: the three
      samples, the snapshot as of the latest timestamp, then the control. */
  lemma SnapshotExample()
    ensures var rs := ThreeSamples() + [ControlOf(SnapshotCommand)];
      ProcessEvents(rs) == Outcome([
        Passed(rs[0]), Passed(rs[1]), Passed(rs[2]),
        SnapshotOut(3000, map["A" := Range(30.0, 25.0), "B" := Range(15.0, 15.0)]),
        Passed(rs[3])], None)
  {
    var pre := ThreeSamples();
    var snap := ControlOf(SnapshotCommand);
    var snapshot := SnapshotOut(3000, map["A" := Range(30.0, 25.0), "B" := Range(15.0, 15.0)]);
    PassThrough(Initial, pre);
    RunSnoc(Initial, pre, snap);
    ThreeSamplesState();
    var t := Run(Initial, pre);
    ThreeSamplesSnapshotStep(t.final);
    assert t.output == [Passed(pre[0]), Passed(pre[1]), Passed(pre[2])];
    assert Run(Initial, pre + [snap]) == Trace(t.output + [snapshot, Passed(snap)], None, t.final);
  }

  lemma ThreeSamplesSnapshotStep(s3: State)
    requires s3 == State(map["A" := Range(30.0, 25.0), "B" := Range(15.0, 15.0)], Some(3000))
    ensures Step(s3, ControlOf(SnapshotCommand)) == Emit([
      SnapshotOut(3000, map["A" := Range(30.0, 25.0), "B" := Range(15.0, 15.0)]),
      Passed(ControlOf(SnapshotCommand))], s3)
  {
    assert "A" in s3.stations;
  }

  /** A snapshot with nothing recorded emits only the control record. */
  lemma LoneSnapshotExample()
    ensures ProcessEvents([ControlOf(SnapshotCommand)]) == Outcome([Passed(ControlOf(SnapshotCommand))], None)
  {
    RunUnfold(Initial, [ControlOf(SnapshotCommand)]);
  }

  /** A reset reports the last timestamp and clears the ranges, so the
      snapshot after it emits nothing. */
  lemma ResetExample()
    ensures var rs := [
        SampleOf(Some("A"), Some(25.0), Some(1000)),
        ControlOf(ResetCommand),
        ControlOf(SnapshotCommand)];
      ProcessEvents(rs) == Outcome([Passed(rs[0]), ResetOut(1000), Passed(rs[1]), Passed(rs[2])], None)
  {
    var s0 := SampleOf(Some("A"), Some(25.0), Some(1000));
    var reset := ControlOf(ResetCommand);
    var snap := ControlOf(SnapshotCommand);
    PassThrough(Initial, [s0]);
    ResetInStream(Initial, [s0], reset, [snap]);
    assert [s0] + [reset] + [snap] == [s0, reset, snap];
    RunUnfold(State(map[], Some(1000)), [snap]);
  }

  /** A reset before any timestamp reports 0. */
  lemma LoneResetExample()
    ensures ProcessEvents([ControlOf(ResetCommand)]) ==
      Outcome([ResetOut(0), Passed(ControlOf(ResetCommand))], None)
  {
    RunUnfold(Initial, [ControlOf(ResetCommand)]);
  }

  /** An unknown command or type stops the run with nothing emitted. */
  lemma BogusExamples()
    ensures ProcessEvents([ControlOf("bogus")]) == Outcome([], Some(InvalidCommand(Some("bogus"))))
    ensures ProcessEvents([Record(Some("bogus"), None, None, None, None, map[])]) ==
      Outcome([], Some(UnknownEventType("bogus")))
  {
    RunUnfold(Initial, [ControlOf("bogus")]);
    RunUnfold(Initial, [Record(Some("bogus"), None, None, None, None, map[])]);
  }

  /** An untyped record passes through even when it carries fields that a
      control or a sample would use. */
  lemma UntypedExample()
    ensures var r := Record(None, Some("A"), Some(5.0), Some(7), Some("reset"), map[]);
      ProcessEvents([r]) == Outcome([Passed(r)], None)
  {
    var r := Record(None, Some("A"), Some(5.0), Some(7), Some("reset"), map[]);
    PassThrough(Initial, [r]);
  }
}
