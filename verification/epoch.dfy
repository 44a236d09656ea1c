/** An independent, history-based description of what the processor
    accumulates: each station's range is the highest and lowest reading
    recorded for it since the last reset, and the last timestamp is the one
    carried by the latest sample that had one. */
module Epoch {
  import opened Wrappers
  import opened Stations
  import opened Records
  import opened Processor
  import opened Properties

  function Max(a: real, b: real): real {
    if a >= b then a else b
  }

  function Min(a: real, b: real): real {
    if a <= b then a else b
  }

  /** The highest of a non-empty list of readings. */
  function Highest(xs: seq<real>): real
    requires |xs| > 0
    decreases |xs|
  {
    if |xs| == 1 then xs[0] else Max(Highest(xs[..|xs| - 1]), xs[|xs| - 1])
  }

  /** The lowest of a non-empty list of readings. */
  function Lowest(xs: seq<real>): real
    requires |xs| > 0
    decreases |xs|
  {
    if |xs| == 1 then xs[0] else Min(Lowest(xs[..|xs| - 1]), xs[|xs| - 1])
  }

  /** The temperatures recorded for station `name` by the valid samples
      that follow the last `reset` control in `rs`, in order. */
  function EpochReadings(rs: seq<Record>, name: string): seq<real>
    decreases |rs|
  {
    if |rs| == 0 then []
    else
      var last := rs[|rs| - 1];
      var before := EpochReadings(rs[..|rs| - 1], name);
      if IsReset(last) then []
      else if IsValidSample(last) && last.stationName.value == name then before + [last.temperature.value]
      else before
  }

  /** The timestamp of the latest sample in `rs` that carries one, valid or
      not; resets do not clear it. */
  function LastTimestamp(rs: seq<Record>): Option<int>
    decreases |rs|
  {
    if |rs| == 0 then None
    else
      var last := rs[|rs| - 1];
      if IsSample(last) && last.timestamp.Some? then last.timestamp
      else LastTimestamp(rs[..|rs| - 1])
  }

  /** `m` holds exactly the stations with readings in the current epoch,
      each with the extremes of those readings. */
  ghost predicate MatchesEpoch(m: StationMap, rs: seq<Record>) {
    && (forall name :: name in m <==> |EpochReadings(rs, name)| > 0)
    && (forall name :: name in m ==>
          m[name] == Range(Highest(EpochReadings(rs, name)), Lowest(EpochReadings(rs, name))))
  }

  ghost predicate Summarizes(st: State, rs: seq<Record>) {
    st.lastTimestamp == LastTimestamp(rs) && MatchesEpoch(st.stations, rs)
  }

  /** Adding one reading to a known station's range gives the extremes of
      the readings extended by it. */
  lemma UpdateMatchesExtremes(m: StationMap, name: string, t: real, xs: seq<real>)
    requires name in m && |xs| > 0 && m[name] == Range(Highest(xs), Lowest(xs))
    ensures UpdateStation(m, name, t)[name] == Range(Highest(xs + [t]), Lowest(xs + [t]))
  {
    assert (xs + [t])[..|xs|] == xs;
  }

  /** The state after an error-free run from the start is the history-based
      summary of its input. */
  lemma {:induction false} RunSummarizesEpoch(rs: seq<Record>)
    requires Run(Initial, rs).error.None?
    ensures Summarizes(Run(Initial, rs).final, rs)
    decreases |rs|
  {
    if |rs| > 0 {
      var init := rs[..|rs| - 1];
      var last := rs[|rs| - 1];
      assert rs == init + [last];
      RunSnoc(Initial, init, last);
      var t := Run(Initial, init);
      assert t.error.None?;
      RunSummarizesEpoch(init);
      var st := t.final;
      var step := Step(st, last);
      assert step.Emit?;
      var next := step.next;
      assert Run(Initial, rs).final == next;
      assert init == rs[..|rs| - 1];
      if IsReset(last) {
        assert next.stations == map[];
      } else if IsValidSample(last) {
        var n := last.stationName.value;
        var temp := last.temperature.value;
        assert next.stations == UpdateStation(st.stations, n, temp);
        forall name | name in next.stations
          ensures next.stations[name] ==
            Range(Highest(EpochReadings(rs, name)), Lowest(EpochReadings(rs, name)))
        {
          if name == n && n in st.stations {
            UpdateMatchesExtremes(st.stations, n, temp, EpochReadings(init, n));
          }
        }
      } else {
        assert next.stations == st.stations;
      }
    }
  }

  /** A `snapshot` control after an error-free prefix `pre` that recorded a
      reading for some station and saw a timestamp emits, right before the
      control record, a snapshot as of the latest timestamp whose ranges are
      the extremes of each station's readings since the last reset. */
  lemma SnapshotReportsEpoch(pre: seq<Record>, r: Record, post: seq<Record>, name: string)
    requires Run(Initial, pre).error.None?
    requires IsSnapshot(r)
    requires LastTimestamp(pre).Some?
    requires |EpochReadings(pre, name)| > 0
    ensures var out := Run(Initial, pre + [r] + post).output;
      var k := |Run(Initial, pre).output|;
      && k + 1 < |out|
      && out[k].SnapshotOut?
      && out[k].asOf == LastTimestamp(pre).value
      && MatchesEpoch(out[k].stations, pre)
      && out[k + 1] == Passed(r)
  {
    RunSummarizesEpoch(pre);
    SnapshotInStream(Initial, pre, r, post);
    var st := Run(Initial, pre).final;
    assert name in st.stations;
  }

  /** When `pre` saw no timestamp or no reading since the last reset, the
      `snapshot` control is passed through with nothing before it. */
  lemma SnapshotSuppressed(pre: seq<Record>, r: Record, post: seq<Record>)
    requires Run(Initial, pre).error.None?
    requires IsSnapshot(r)
    requires LastTimestamp(pre).None? || forall name :: |EpochReadings(pre, name)| == 0
    ensures var out := Run(Initial, pre + [r] + post).output;
      var k := |Run(Initial, pre).output|;
      k < |out| && out[k] == Passed(r)
  {
    RunSummarizesEpoch(pre);
    SnapshotInStream(Initial, pre, r, post);
    var st := Run(Initial, pre).final;
    if st.lastTimestamp.Some? {
      assert LastTimestamp(pre).Some?;
      forall name
        ensures name !in st.stations
      {
        assert |EpochReadings(pre, name)| == 0;
      }
      assert st.stations == map[];
    }
  }
}
