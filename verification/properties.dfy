/** Properties of whole runs: how runs compose, what passes through, where
    synthesized events appear, and how errors cut the stream off. */
module Properties {
  import opened Wrappers
  import opened Stations
  import opened Records
  import opened Processor

  /** Running over `a + b` is running over `a`, then (if `a` raised no
      error) running over `b` from the state `a` left behind. */
  lemma {:induction false} RunAppend(s: State, a: seq<Record>, b: seq<Record>)
    ensures var ta := Run(s, a);
      Run(s, a + b) == if ta.error.Some? then ta else Prepend(ta.output, Run(ta.final, b))
    decreases |a|
  {
    if |a| == 0 {
      assert a + b == b;
      assert [] + Run(s, b).output == Run(s, b).output;
    } else {
      var ab := a + b;
      assert ab[0] == a[0];
      assert ab[1..] == a[1..] + b;
      RunUnfold(s, a);
      RunUnfold(s, ab);
      var step := Step(s, a[0]);
      if step.Emit? {
        RunAppend(step.next, a[1..], b);
        var tr := Run(step.next, a[1..]);
        assert Run(s, a) == Prepend(step.out, tr);
        assert Run(s, ab) == Prepend(step.out, Run(step.next, a[1..] + b));
        if tr.error.None? {
          PrependPrepend(step.out, tr.output, Run(tr.final, b));
        }
      }
    }
  }

  lemma PrependPrepend(x: seq<Output>, y: seq<Output>, t: Trace)
    ensures Prepend(x, Prepend(y, t)) == Prepend(x + y, t)
  {
    assert x + (y + t.output) == (x + y) + t.output;
  }

  /** Running over one more record. */
  lemma RunSnoc(s: State, rs: seq<Record>, r: Record)
    ensures var t := Run(s, rs);
      Run(s, rs + [r]) ==
        if t.error.Some? then t
        else match Step(t.final, r)
          case Fail(err) => Trace(t.output, Some(err), t.final)
          case Emit(out, next) => Trace(t.output + out, None, next)
  {
    RunAppend(s, rs, [r]);
    var t := Run(s, rs);
    if t.error.None? {
      RunUnfold(t.final, [r]);
      assert [r][1..] == [];
      assert t.output + [] == t.output;
    }
  }

  /** A stream of samples and untyped records comes back unchanged: the
      output is the input, element for element and in order, and no error
      is raised. */
  lemma {:induction false} PassThrough(s: State, rs: seq<Record>)
    requires forall i :: 0 <= i < |rs| ==> IsSample(rs[i]) || IsUntyped(rs[i])
    ensures Run(s, rs).error.None?
    ensures |Run(s, rs).output| == |rs|
    ensures forall i :: 0 <= i < |rs| ==> Run(s, rs).output[i] == Passed(rs[i])
    decreases |rs|
  {
    if |rs| > 0 {
      RunUnfold(s, rs);
      var step := Step(s, rs[0]);
      assert step.out == [Passed(rs[0])];
      PassThrough(step.next, rs[1..]);
    }
  }

  /** An untyped record passes through whatever other fields it carries,
      and leaves the state as it was. */
  lemma UntypedPassThrough(s: State, r: Record)
    requires IsUntyped(r)
    ensures Step(s, r) == Emit([Passed(r)], s)
  {
  }

  /** If a run fails, its output is exactly what the records before the
      failing one produced, and the failing record's own step is the error. */
  lemma {:induction false} ErrorIsPrefix(s: State, rs: seq<Record>)
    requires Run(s, rs).error.Some?
    ensures exists k :: (0 <= k < |rs|
      && Run(s, rs[..k]).error.None?
      && Run(s, rs[..k]).output == Run(s, rs).output
      && Step(Run(s, rs[..k]).final, rs[k]).Fail?
      && Run(s, rs).error == Some(Step(Run(s, rs[..k]).final, rs[k]).error))
    decreases |rs|
  {
    RunUnfold(s, rs);
    var step := Step(s, rs[0]);
    if step.Fail? {
      assert rs[..0] == [];
      assert Run(s, rs[..0]) == Trace([], None, s);
    } else {
      var tail := rs[1..];
      ErrorIsPrefix(step.next, tail);
      var k :| 0 <= k < |tail|
        && Run(step.next, tail[..k]).error.None?
        && Run(step.next, tail[..k]).output == Run(step.next, tail).output
        && Step(Run(step.next, tail[..k]).final, tail[k]).Fail?
        && Run(step.next, tail).error == Some(Step(Run(step.next, tail[..k]).final, tail[k]).error);
      var head := rs[..k + 1];
      assert head[0] == rs[0];
      assert head[1..] == tail[..k];
      RunUnfold(s, head);
      assert Run(s, head) == Prepend(step.out, Run(step.next, tail[..k]));
      assert rs[k + 1] == tail[k];
      assert Run(s, rs) == Prepend(step.out, Run(step.next, tail));
    }
  }

  /** A record with a non-null type other than `sample` or `control` stops
      the run with an error naming that type; the output is exactly what
      the preceding records produced, and nothing after it is processed. */
  lemma UnknownTypeCutsOff(s: State, pre: seq<Record>, r: Record, post: seq<Record>)
    requires Run(s, pre).error.None?
    requires IsUnknownType(r)
    ensures Run(s, pre + [r] + post) ==
      Trace(Run(s, pre).output, Some(UnknownEventType(r.typ.value)), Run(s, pre).final)
  {
    assert pre + [r] + post == pre + ([r] + post);
    RunAppend(s, pre, [r] + post);
    RunUnfold(Run(s, pre).final, [r] + post);
    assert Run(s, pre).output + [] == Run(s, pre).output;
  }

  /** A control record whose command is neither `snapshot` nor `reset` stops
      the run with an error naming the command; neither the record itself
      nor anything after it is emitted. */
  lemma InvalidCommandCutsOff(s: State, pre: seq<Record>, r: Record, post: seq<Record>)
    requires Run(s, pre).error.None?
    requires IsBadControl(r)
    ensures Run(s, pre + [r] + post) ==
      Trace(Run(s, pre).output, Some(InvalidCommand(r.command)), Run(s, pre).final)
    ensures Passed(r) !in Run(s, pre + [r] + post).output || r in pre
  {
    assert pre + [r] + post == pre + ([r] + post);
    RunAppend(s, pre, [r] + post);
    RunUnfold(Run(s, pre).final, [r] + post);
    assert Run(s, pre).output + [] == Run(s, pre).output;
    RunConsumesInOrder(s, pre);
    OriginalsMembership(Run(s, pre).output, r);
  }

  /** A `snapshot` control in the middle of a stream: after what the
      preceding records produced comes the snapshot of the ranges as of the
      last timestamp (only when there is a station and a timestamp), then
      the control record itself, then the rest of the stream run from an
      unchanged state. */
  lemma SnapshotInStream(s: State, pre: seq<Record>, r: Record, post: seq<Record>)
    requires Run(s, pre).error.None?
    requires IsSnapshot(r)
    ensures var p := Run(s, pre);
      var st := p.final;
      var synth :=
        if st.stations != map[] && st.lastTimestamp.Some?
        then [SnapshotOut(st.lastTimestamp.value, st.stations)]
        else [];
      Run(s, pre + [r] + post) == Prepend(p.output + synth + [Passed(r)], Run(st, post))
  {
    var p := Run(s, pre);
    assert pre + [r] + post == pre + ([r] + post);
    RunAppend(s, pre, [r] + post);
    SnapshotThenRest(p.final, r, post);
    PrependPrepend(p.output, HandleSnapshot(p.final) + [Passed(r)], Run(p.final, post));
    assert p.output + (HandleSnapshot(p.final) + [Passed(r)])
      == p.output + HandleSnapshot(p.final) + [Passed(r)];
  }

  lemma SnapshotThenRest(st: State, r: Record, post: seq<Record>)
    requires IsSnapshot(r)
    ensures Run(st, [r] + post) == Prepend(HandleSnapshot(st) + [Passed(r)], Run(st, post))
  {
    RunUnfold(st, [r] + post);
    assert ([r] + post)[1..] == post;
    assert Step(st, r) == Emit(HandleSnapshot(st) + [Passed(r)], st);
  }

  /** A `reset` control in the middle of a stream: after what the preceding
      records produced comes a reset event as of the last timestamp (0 when
      none was seen), then the control record, then the rest of the stream
      run with no stations and the same last timestamp. */
  lemma ResetInStream(s: State, pre: seq<Record>, r: Record, post: seq<Record>)
    requires Run(s, pre).error.None?
    requires IsReset(r)
    ensures var p := Run(s, pre);
      var ts := p.final.lastTimestamp;
      Run(s, pre + [r] + post) ==
        Prepend(p.output + [ResetOut(ts.GetOr(0)), Passed(r)], Run(State(map[], ts), post))
  {
    var p := Run(s, pre);
    assert pre + [r] + post == pre + ([r] + post);
    RunAppend(s, pre, [r] + post);
    ResetThenRest(p.final, r, post);
    PrependPrepend(p.output, [ResetOut(p.final.lastTimestamp.GetOr(0)), Passed(r)],
      Run(State(map[], p.final.lastTimestamp), post));
  }

  lemma ResetThenRest(st: State, r: Record, post: seq<Record>)
    requires IsReset(r)
    ensures Run(st, [r] + post) ==
      Prepend([ResetOut(st.lastTimestamp.GetOr(0)), Passed(r)], Run(State(map[], st.lastTimestamp), post))
  {
    RunUnfold(st, [r] + post);
    assert ([r] + post)[1..] == post;
    assert Step(st, r) == Emit([ResetOut(st.lastTimestamp.GetOr(0)), Passed(r)], State(map[], st.lastTimestamp));
  }

  /** With no stations, a stream without valid samples keeps the ranges
      empty and so synthesizes no snapshot. */
  lemma {:induction false} EmptyStaysEmpty(s: State, rs: seq<Record>)
    requires s.stations == map[]
    requires forall i :: 0 <= i < |rs| ==> !IsValidSample(rs[i])
    ensures Run(s, rs).final.stations == map[]
    ensures forall o :: o in Run(s, rs).output ==> !o.SnapshotOut?
    decreases |rs|
  {
    if |rs| > 0 {
      RunUnfold(s, rs);
      var step := Step(s, rs[0]);
      if step.Emit? {
        assert step.next.stations == map[];
        assert forall o :: o in step.out ==> !o.SnapshotOut?;
        EmptyStaysEmpty(step.next, rs[1..]);
      }
    }
  }

  /** After a `reset`, no snapshot is synthesized until a valid sample
      arrives again. */
  lemma ResetSilencesSnapshots(s: State, r: Record, rest: seq<Record>)
    requires IsReset(r)
    requires forall i :: 0 <= i < |rest| ==> !IsValidSample(rest[i])
    ensures forall o :: o in Run(s, [r] + rest).output ==> !o.SnapshotOut?
  {
    RunUnfold(s, [r] + rest);
    assert ([r] + rest)[1..] == rest;
    var step := Step(s, r);
    EmptyStaysEmpty(step.next, rest);
  }

  /** Every synthesized event is immediately followed by the control record
      that caused it: a snapshot by a `snapshot` control, a reset by a
      `reset` control. */
  lemma {:induction false} SynthesizedPrecedesControl(s: State, rs: seq<Record>)
    ensures var out := Run(s, rs).output;
      forall i :: 0 <= i < |out| && out[i].Synthesized() ==>
        && i + 1 < |out| && out[i + 1].Passed? && IsControl(out[i + 1].record)
        && (out[i].SnapshotOut? ==> IsSnapshot(out[i + 1].record))
        && (out[i].ResetOut? ==> IsReset(out[i + 1].record))
    decreases |rs|
  {
    if |rs| > 0 {
      RunUnfold(s, rs);
      var step := Step(s, rs[0]);
      if step.Emit? {
        SynthesizedPrecedesControl(step.next, rs[1..]);
        var out := Run(s, rs).output;
        var tail := Run(step.next, rs[1..]).output;
        assert out == step.out + tail;
        forall i | 0 <= i < |out| && out[i].Synthesized()
          ensures && i + 1 < |out| && out[i + 1].Passed? && IsControl(out[i + 1].record)
                  && (out[i].SnapshotOut? ==> IsSnapshot(out[i + 1].record))
                  && (out[i].ResetOut? ==> IsReset(out[i + 1].record))
        {
          if i < |step.out| {
            assert i == 0 && |step.out| == 2;
          } else {
            assert out[i] == tail[i - |step.out|];
            assert out[i + 1] == tail[i + 1 - |step.out|];
          }
        }
      }
    }
  }

  /** Every synthesized snapshot carries at least one station, and all its
      ranges have `low <= high`. */
  lemma {:induction false} SnapshotsWellFormed(s: State, rs: seq<Record>)
    requires AllWellFormed(s.stations)
    ensures forall o :: o in Run(s, rs).output && o.SnapshotOut? ==>
      o.stations != map[] && AllWellFormed(o.stations)
    decreases |rs|
  {
    if |rs| > 0 {
      RunUnfold(s, rs);
      var step := Step(s, rs[0]);
      if step.Emit? {
        StepKeepsWellFormed(s, rs[0]);
        SnapshotsWellFormed(step.next, rs[1..]);
        assert forall o :: o in step.out && o.SnapshotOut? ==> o.stations == s.stations;
      }
    }
  }
}
