/** The window-level rules of the turbulence classifier: the criterion
    |std(baro) - std(inertial)|, the per-track adaptive threshold
    max(floor, mean + multiplier * std), the turbulence flag and the
    3-sigma positional anomaly flag, plus the hard drop of anomalous rows.

    A window is one minute of one track after median filtering and
    aggregation (both done by the trajectory library). Absent values (NaN
    in the data frame) are `None`; pandas statistics skip them, and every
    comparison with NaN is false. Means are computed exactly; the standard
    deviation is the numeric library's, passed in as `stdev`. */
module TurbulenceRules {
  import opened Common

  function Abs(x: real): real { if x < 0.0 then -x else x }

  function Max(a: real, b: real): real { if a >= b then a else b }

  /** One aggregated one-minute window of one track. */
  datatype Window = Window(
    icao24: string,
    start: int,
    latitude: Option<real>,
    longitude: Option<real>,
    baroStd: Option<real>,
    inertialStd: Option<real>)

  /** A window with the columns the classifier assigns. */
  datatype Row = Row(
    window: Window,
    criterion: Option<real>,
    threshold: real,
    turbulence: bool,
    anomaly: bool)

  // ---------------------------------------------------------------- statistics

  function Sum(xs: seq<real>): real
  {
    if xs == [] then 0.0 else xs[0] + Sum(xs[1..])
  }

  function Mean(xs: seq<real>): real
    requires xs != []
  {
    Sum(xs) / (|xs| as real)
  }

  /** True when every value of `xs` is the same. */
  predicate AllEqual(xs: seq<real>)
  {
    forall i, j :: 0 <= i < |xs| && 0 <= j < |xs| ==> xs[i] == xs[j]
  }

  /** What the numeric library's standard deviation promises and the proofs
      below rely on: a column of equal values has spread 0. */
  ghost predicate ZeroSpreadOnConstant(stdev: seq<real> -> real)
  {
    forall xs: seq<real> {:trigger stdev(xs)} :: xs != [] && AllEqual(xs) ==> stdev(xs) == 0.0
  }

  /** The values of a column that are not NaN, in order. */
  function Present(col: seq<Option<real>>): (p: seq<real>)
    ensures |p| <= |col|
    ensures forall x :: x in p <==> Some(x) in col
  {
    if col == [] then []
    else if col[0].Some? then [col[0].value] + Present(col[1..])
    else Present(col[1..])
  }

  /** `Present` keeps every non-NaN value with its multiplicity and in
      order: it maps a one-entry column to its value or to nothing, and
      distributes over concatenation. */
  lemma PresentSingle(x: Option<real>)
    ensures Present([x]) == if x.Some? then [x.value] else []
  {
  }

  lemma {:induction false} PresentConcat(a: seq<Option<real>>, b: seq<Option<real>>)
    ensures Present(a + b) == Present(a) + Present(b)
  {
    if a == [] {
      assert a + b == b;
    } else {
      assert (a + b)[0] == a[0];
      assert (a + b)[1..] == a[1..] + b;
      PresentConcat(a[1..], b);
      if a[0].Some? {
        ConcatAssoc([a[0].value], Present(a[1..]), Present(b));
      }
    }
  }

  /** Mean and standard deviation of a column, NaN when it has no values. */
  datatype Moments = NaN | Defined(mean: real, sd: real)

  function MomentsOf(col: seq<Option<real>>, stdev: seq<real> -> real): Moments
  {
    var p := Present(col);
    if p == [] then NaN else Defined(Mean(p), stdev(p))
  }

  // ---------------------------------------------------------------- rules

  /** crit: the absolute difference of the two vertical-rate deviations;
      NaN as soon as either is NaN. */
  function Criterion(w: Window): (c: Option<real>)
    ensures c.Some? <==> w.baroStd.Some? && w.inertialStd.Some?
    ensures c.Some? ==> c.value >= 0.0
    ensures c.Some? ==> (c.value == 0.0 <==> w.baroStd == w.inertialStd)
  {
    if w.baroStd.Some? && w.inertialStd.Some?
    then Some(Abs(w.baroStd.value - w.inertialStd.value))
    else None
  }

  /** threshold: mean + multiplier * std of the criterion column when that
      exceeds the floor, the floor otherwise (a NaN mean never exceeds it). */
  function Threshold(crit: Moments, floor: real, multiplier: real): (t: real)
    ensures t >= floor
    ensures crit.NaN? ==> t == floor
    ensures crit.Defined? ==> t == Max(floor, crit.mean + multiplier * crit.sd)
  {
    if crit.Defined? && crit.mean + multiplier * crit.sd > floor
    then crit.mean + multiplier * crit.sd
    else floor
  }

  /** turbulence: criterion strictly above the threshold (NaN is never above). */
  predicate Turbulent(criterion: Option<real>, threshold: real)
  {
    criterion.Some? && criterion.value > threshold
  }

  /** One column's half of anomaly: strictly outside mean +- 3 std. */
  predicate Outside(x: Option<real>, m: Moments)
  {
    x.Some? && m.Defined? && (x.value > m.mean + 3.0 * m.sd || x.value < m.mean - 3.0 * m.sd)
  }

  predicate Anomalous(w: Window, lat: Moments, lon: Moments)
  {
    Outside(w.latitude, lat) || Outside(w.longitude, lon)
  }

  function Criteria(ws: seq<Window>): (col: seq<Option<real>>)
    ensures |col| == |ws| && forall i :: 0 <= i < |ws| ==> col[i] == Criterion(ws[i])
  {
    seq(|ws|, i requires 0 <= i < |ws| => Criterion(ws[i]))
  }

  function Latitudes(ws: seq<Window>): (col: seq<Option<real>>)
    ensures |col| == |ws| && forall i :: 0 <= i < |ws| ==> col[i] == ws[i].latitude
  {
    seq(|ws|, i requires 0 <= i < |ws| => ws[i].latitude)
  }

  function Longitudes(ws: seq<Window>): (col: seq<Option<real>>)
    ensures |col| == |ws| && forall i :: 0 <= i < |ws| ==> col[i] == ws[i].longitude
  {
    seq(|ws|, i requires 0 <= i < |ws| => ws[i].longitude)
  }

  /** The threshold of one track, computed over all of its windows. */
  function TrackThreshold(ws: seq<Window>, floor: real, multiplier: real, stdev: seq<real> -> real): real
  {
    Threshold(MomentsOf(Criteria(ws), stdev), floor, multiplier)
  }

  /** The four `assign` steps applied to one track's windows. */
  function ClassifyTrack(ws: seq<Window>, floor: real, multiplier: real, stdev: seq<real> -> real): (rows: seq<Row>)
    ensures |rows| == |ws|
    ensures forall i :: 0 <= i < |rows| ==>
      && rows[i].window == ws[i]
      && rows[i].criterion == Criterion(ws[i])
      && rows[i].threshold == TrackThreshold(ws, floor, multiplier, stdev)
      && rows[i].threshold >= floor
      && (rows[i].turbulence <==> rows[i].criterion.Some? && rows[i].criterion.value > rows[i].threshold)
      && (rows[i].anomaly <==> Anomalous(ws[i], MomentsOf(Latitudes(ws), stdev), MomentsOf(Longitudes(ws), stdev)))
  {
    var t := TrackThreshold(ws, floor, multiplier, stdev);
    var lat := MomentsOf(Latitudes(ws), stdev);
    var lon := MomentsOf(Longitudes(ws), stdev);
    seq(|ws|, i requires 0 <= i < |ws| =>
      Row(ws[i], Criterion(ws[i]), t, Turbulent(Criterion(ws[i]), t), Anomalous(ws[i], lat, lon)))
  }

  /** Every track classified on its own, the rows concatenated in track order. */
  function ClassifyAll(tracks: seq<seq<Window>>, floor: real, multiplier: real, stdev: seq<real> -> real): (rows: seq<Row>)
    ensures forall r :: r in rows ==> r.threshold >= floor
    ensures forall r :: r in rows ==> exists k :: 0 <= k < |tracks| && r.window in tracks[k]
    ensures forall k, r :: 0 <= k < |tracks| && r in ClassifyTrack(tracks[k], floor, multiplier, stdev) ==> r in rows
    ensures forall r :: r in rows ==> exists k :: 0 <= k < |tracks| && r in ClassifyTrack(tracks[k], floor, multiplier, stdev)
  {
    if tracks == [] then []
    else ClassifyTrack(tracks[0], floor, multiplier, stdev) + ClassifyAll(tracks[1..], floor, multiplier, stdev)
  }

  /** `query("not anomaly")`: the rows whose anomaly flag is false, in order. */
  function DropAnomalies(rows: seq<Row>): (kept: seq<Row>)
    ensures |kept| <= |rows|
    ensures forall r :: r in kept <==> r in rows && !r.anomaly
  {
    if rows == [] then []
    else if rows[0].anomaly then DropAnomalies(rows[1..])
    else [rows[0]] + DropAnomalies(rows[1..])
  }

  /** The classified dataset built from the aggregated windows of every track. */
  function ProcessedData(tracks: seq<seq<Window>>, floor: real, multiplier: real, stdev: seq<real> -> real): (rows: seq<Row>)
    ensures forall r :: r in rows ==> !r.anomaly && r.threshold >= floor
    ensures forall r :: r in rows ==> exists k :: 0 <= k < |tracks| && r.window in tracks[k]
    ensures forall r :: r in ClassifyAll(tracks, floor, multiplier, stdev) && !r.anomaly ==> r in rows
    ensures forall k, r :: 0 <= k < |tracks| && r in ClassifyTrack(tracks[k], floor, multiplier, stdev) && !r.anomaly ==> r in rows
    ensures forall r :: r in rows ==> exists k :: 0 <= k < |tracks| && r in ClassifyTrack(tracks[k], floor, multiplier, stdev)
  {
    DropAnomalies(ClassifyAll(tracks, floor, multiplier, stdev))
  }

  // ---------------------------------------------------------------- lemmas

  /** Swapping the barometric and inertial deviations leaves the criterion unchanged. */
  lemma CriterionSymmetric(w: Window)
    ensures Criterion(w.(baroStd := w.inertialStd, inertialStd := w.baroStd)) == Criterion(w)
  {
  }

  /** A window is anomalous iff one of its coordinates deviates from the
      column mean by more than three standard deviations. */
  lemma OutsideIsDeviation(x: Option<real>, m: Moments)
    ensures Outside(x, m) <==> x.Some? && m.Defined? && Abs(x.value - m.mean) > 3.0 * m.sd
  {
  }

  lemma {:induction false} SumConstant(xs: seq<real>, c: real)
    requires forall i :: 0 <= i < |xs| ==> xs[i] == c
    ensures Sum(xs) == (|xs| as real) * c
  {
    if xs != [] {
      SumConstant(xs[1..], c);
    }
  }

  /** A column whose values are all `c` has mean `c`. */
  lemma ConstantMean(xs: seq<real>, c: real)
    requires xs != []
    requires forall i :: 0 <= i < |xs| ==> xs[i] == c
    ensures Mean(xs) == c
  {
    SumConstant(xs, c);
    DivideBack(|xs| as real, c);
  }

  lemma DivideBack(n: real, c: real)
    requires n > 0.0
    ensures (n * c) / n == c
  {
  }

  lemma {:induction false} PresentAllSome(col: seq<Option<real>>, c: real)
    requires forall i :: 0 <= i < |col| ==> col[i] == Some(c)
    ensures |Present(col)| == |col|
    ensures forall i :: 0 <= i < |Present(col)| ==> Present(col)[i] == c
  {
    if col != [] {
      PresentAllSome(col[1..], c);
    }
  }

  /** When every window of a track has the same criterion `c <= floor`, the
      threshold is exactly the floor, whatever the multiplier. */
  lemma ConstantCriterionThresholdIsFloor(ws: seq<Window>, c: real, floor: real, multiplier: real, stdev: seq<real> -> real)
    requires ws != []
    requires forall i :: 0 <= i < |ws| ==> Criterion(ws[i]) == Some(c)
    requires c <= floor
    requires ZeroSpreadOnConstant(stdev)
    ensures TrackThreshold(ws, floor, multiplier, stdev) == floor
  {
    var p := Present(Criteria(ws));
    PresentAllSome(Criteria(ws), c);
    ConstantMean(p, c);
    assert AllEqual(p);
  }

  /** A track with no defined criterion gets the floor as threshold. */
  lemma {:induction false} AbsentCriteriaThresholdIsFloor(ws: seq<Window>, floor: real, multiplier: real, stdev: seq<real> -> real)
    requires forall i :: 0 <= i < |ws| ==> Criterion(ws[i]).None?
    ensures TrackThreshold(ws, floor, multiplier, stdev) == floor
  {
    PresentOfAbsent(Criteria(ws));
  }

  lemma {:induction false} PresentOfAbsent(col: seq<Option<real>>)
    requires forall i :: 0 <= i < |col| ==> col[i].None?
    ensures Present(col) == []
  {
    if col != [] {
      PresentOfAbsent(col[1..]);
    }
  }

  /** A window whose criterion does not exceed the floor is never turbulent,
      and a criterion equal to the threshold is not turbulent either. */
  lemma NotTurbulentAtOrBelowFloor(ws: seq<Window>, floor: real, multiplier: real, stdev: seq<real> -> real, i: nat)
    requires i < |ws|
    ensures var r := ClassifyTrack(ws, floor, multiplier, stdev)[i];
      (r.criterion.Some? && (r.criterion.value <= floor || r.criterion.value == r.threshold)) ==> !r.turbulence
  {
  }

  /** Constant vertical rates on both channels: every criterion is 0, the
      threshold is the floor and no window is turbulent. */
  lemma SteadyTrackIsCalm(ws: seq<Window>, floor: real, multiplier: real, stdev: seq<real> -> real)
    requires ws != [] && floor >= 0.0
    requires forall i :: 0 <= i < |ws| ==> ws[i].baroStd.Some? && ws[i].baroStd == ws[i].inertialStd
    requires ZeroSpreadOnConstant(stdev)
    ensures TrackThreshold(ws, floor, multiplier, stdev) == floor
    ensures forall r :: r in ClassifyTrack(ws, floor, multiplier, stdev) ==> !r.turbulence
  {
    ConstantCriterionThresholdIsFloor(ws, 0.0, floor, multiplier, stdev);
  }

  /** A track whose positions are all identical has no anomalous window. */
  lemma IdenticalPositionsNoAnomaly(ws: seq<Window>, lat: Option<real>, lon: Option<real>, stdev: seq<real> -> real)
    requires forall i :: 0 <= i < |ws| ==> ws[i].latitude == lat && ws[i].longitude == lon
    requires ZeroSpreadOnConstant(stdev)
    ensures forall i :: 0 <= i < |ws| ==> !Anomalous(ws[i], MomentsOf(Latitudes(ws), stdev), MomentsOf(Longitudes(ws), stdev))
  {
    if ws != [] {
      if lat.Some? {
        var p := Present(Latitudes(ws));
        PresentAllSome(Latitudes(ws), lat.value);
        ConstantMean(p, lat.value);
        assert AllEqual(p);
      }
      if lon.Some? {
        var p := Present(Longitudes(ws));
        PresentAllSome(Longitudes(ws), lon.value);
        ConstantMean(p, lon.value);
        assert AllEqual(p);
      }
    }
  }

  /** Dropping anomalies twice is dropping them once. */
  lemma {:induction false} DropAnomaliesIdempotent(rows: seq<Row>)
    ensures DropAnomalies(DropAnomalies(rows)) == DropAnomalies(rows)
  {
    if rows != [] {
      DropAnomaliesIdempotent(rows[1..]);
      if !rows[0].anomaly {
        assert ([rows[0]] + DropAnomalies(rows[1..]))[1..] == DropAnomalies(rows[1..]);
      }
    }
  }

  /** Rows without an anomaly pass the filter unchanged and in order. */
  lemma {:induction false} DropAnomaliesKeepsClean(rows: seq<Row>)
    requires forall i :: 0 <= i < |rows| ==> !rows[i].anomaly
    ensures DropAnomalies(rows) == rows
  {
    if rows != [] {
      DropAnomaliesKeepsClean(rows[1..]);
      assert [rows[0]] + rows[1..] == rows;
    }
  }

  /** A track whose positions are all identical keeps every one of its windows. */
  lemma IdenticalPositionsKeepAllWindows(ws: seq<Window>, lat: Option<real>, lon: Option<real>,
                                         floor: real, multiplier: real, stdev: seq<real> -> real)
    requires forall i :: 0 <= i < |ws| ==> ws[i].latitude == lat && ws[i].longitude == lon
    requires ZeroSpreadOnConstant(stdev)
    ensures DropAnomalies(ClassifyTrack(ws, floor, multiplier, stdev)) == ClassifyTrack(ws, floor, multiplier, stdev)
  {
    IdenticalPositionsNoAnomaly(ws, lat, lon, stdev);
    DropAnomaliesKeepsClean(ClassifyTrack(ws, floor, multiplier, stdev));
  }
}
