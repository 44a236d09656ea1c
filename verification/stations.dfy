/** Per-station temperature ranges and the update applied for every valid sample. */
module Stations {

  /** The highest and lowest temperature seen for one station in the current epoch. */
  datatype Range = Range(high: real, low: real)

  type StationMap = map<string, Range>

  predicate WellFormed(r: Range) {
    r.low <= r.high
  }

  /** Every station's range has `low <= high`. */
  predicate AllWellFormed(m: StationMap) {
    forall name :: name in m ==> WellFormed(m[name])
  }

  /** True iff `t` lies inside the closed interval `[low, high]`. */
  predicate Covers(r: Range, t: real) {
    r.low <= t <= r.high
  }

  /** Records one reading `t` for station `name`: an unseen station gets the
      degenerate range `[t, t]`; a known one has each bound replaced only when
      `t` lies strictly beyond it. The result is the smallest range covering
      both the old range and `t`, and no other entry changes. */
  function UpdateStation(m: StationMap, name: string, t: real): (r: StationMap)
    ensures r.Keys == m.Keys + {name}
    ensures forall other :: other in m && other != name ==> r[other] == m[other]
    ensures name !in m ==> r[name] == Range(t, t)
    ensures Covers(r[name], t)
    ensures name in m ==> r[name].low <= m[name].low && m[name].high <= r[name].high
    ensures name in m ==> (r[name].high == m[name].high || r[name].high == t)
    ensures name in m ==> (r[name].low == m[name].low || r[name].low == t)
  {
    if name !in m then
      m[name := Range(t, t)]
    else
      var prev := m[name];
      var high := if t > prev.high then t else prev.high;
      var low := if t < prev.low then t else prev.low;
      m[name := Range(high, low)]
  }

  /** The update preserves `low <= high` for every station. */
  lemma UpdateKeepsWellFormed(m: StationMap, name: string, t: real)
    requires AllWellFormed(m)
    ensures AllWellFormed(UpdateStation(m, name, t))
  {
    var r := UpdateStation(m, name, t);
    forall n | n in r
      ensures WellFormed(r[n])
    {
      if n == name {
        assert Covers(r[n], t);
      } else {
        assert r[n] == m[n];
      }
    }
  }

  /** Because both comparisons are strict, a reading already inside a known
      station's range leaves the whole map unchanged. */
  lemma UpdateInsideRangeIsNoOp(m: StationMap, name: string, t: real)
    requires name in m && Covers(m[name], t)
    ensures UpdateStation(m, name, t) == m
  {
    var r := UpdateStation(m, name, t);
    assert r[name] == m[name];
    assert r.Keys == m.Keys;
  }

  /** Feeding the same reading twice changes nothing beyond the first time. */
  lemma UpdateIdempotent(m: StationMap, name: string, t: real)
    ensures UpdateStation(UpdateStation(m, name, t), name, t) == UpdateStation(m, name, t)
  {
    var once := UpdateStation(m, name, t);
    UpdateInsideRangeIsNoOp(once, name, t);
  }
}
