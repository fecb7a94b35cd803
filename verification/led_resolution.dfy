/** `compute_resolution_points` of the LED resolution script
    (Test_LED_Analysis/plot_resolution_vs_voltage.py): one point per usable histogram CSV,
    resolution = RMS / mean in percent, sorted by voltage. */
module LedResolution {
  import opened Wrappers
  import opened HistModel
  import Sorting

  const AreaPrefix: string := "hist_area_"
  const AmplitudePrefix: string := "hist_amplitude_"

  /** One CSV file: its rows, and the moments ROOT reports for the histogram built from
      them (`GetMean`, `GetRMS`, `GetMeanError`, `GetRMSError`). */
  datatype LedHist = LedHist(rows: seq<Row>, mean: Num, rms: Num, meanErr: real, rmsErr: real)

  /** The moments are usable: the mean is a non-zero number and the RMS a number. */
  predicate GoodMoments(h: LedHist) {
    h.mean.Finite? && h.rms.Finite? && h.mean.value != 0.0
  }

  /** The point of a usable file: resolution `rms / mean` and its propagated error, both
      in percent (lines 125-138). */
  function RatioPoint(v: real, mean: real, rms: real, meanErr: real, rmsErr: real, sqrt: real -> real): (p: Point)
    requires IsSqrt(sqrt) && mean != 0.0
    ensures p.v == v && p.vErr == 0.0
    ensures IsRatio(p.res, 100.0 * rms, mean)
    ensures p.resErr >= 0.0
    ensures rms <= 0.0 ==> p.resErr == 0.0
    ensures rms > 0.0 ==> IsPropagatedError(p.resErr, p.res, RelErrorSquared(rms, rmsErr, mean, meanErr))
  {
    var res := rms / mean;
    var resErr :=
      if rms > 0.0 then RatioError(res, RelErrorSquared(rms, rmsErr, mean, meanErr), sqrt)
      else 0.0;
    if rms > 0.0 then
      PercentKeepsSquares(resErr, res, RelErrorSquared(rms, rmsErr, mean, meanErr));
      Point(v, res * 100.0, 0.0, resErr * 100.0)
    else
      Point(v, res * 100.0, 0.0, resErr * 100.0)
  }

  /** Scaling a ratio and its error by the same factor keeps their squared relation. */
  lemma PercentKeepsSquares(err: real, ratio: real, q: real)
    requires err * err == ratio * ratio * q
    ensures (err * 100.0) * (err * 100.0) == (ratio * 100.0) * (ratio * 100.0) * q
  {
    assert (err * 100.0) * (err * 100.0) == 10000.0 * (err * err);
    assert (ratio * 100.0) * (ratio * 100.0) * q == 10000.0 * (ratio * ratio * q);
  }

  /** `res` is the file's resolution in percent: 100 * rms / mean. */
  predicate IsResolutionOf(res: real, h: LedHist) {
    GoodMoments(h) && IsRatio(res, 100.0 * h.rms.value, h.mean.value)
  }

  /** The body of the per-file loop: the point a file contributes, or None when it is
      skipped (no voltage in the name, fewer than two rows, bad mean or RMS). */
  function LedPoint(e: Entry<LedHist>, sqrt: real -> real): (r: Option<Point>)
    requires IsSqrt(sqrt)
    ensures r.Some? <==>
              ParseVoltage(e.name).Some? && |ReadBinnedHistCsv(e.data.rows).x| >= 2 && GoodMoments(e.data)
    ensures r.Some? ==> r.value == RatioPoint(ParseVoltage(e.name).value, e.data.mean.value, e.data.rms.value,
                                              e.data.meanErr, e.data.rmsErr, sqrt)
  {
    var h := e.data;
    match ParseVoltage(e.name)
    case None => None
    case Some(v) =>
      var cols := ReadBinnedHistCsv(h.rows);
      if |cols.x| < 2 || BinEdges(cols.x).None? then None
      else if h.mean == Finite(0.0) || h.mean.NaN? || h.rms.NaN? then None
      else Some(RatioPoint(v, h.mean.value, h.rms.value, h.meanErr, h.rmsErr, sqrt))
  }

  /** The per-file step as a function value: LedPoint of every file. */
  function LedPointOf(sqrt: real -> real): (f: Entry<LedHist> --> Option<Point>)
    ensures IsSqrt(sqrt) ==> forall e :: f.requires(e) && f(e) == LedPoint(e, sqrt)
  {
    e requires IsSqrt(sqrt) => LedPoint(e, sqrt)
  }

  /** `compute_resolution_points`: fails when no file matches the prefix or no file gives
      a point; otherwise the curve of every usable file, sorted by voltage. */
  function ComputeResolutionPoints(entries: seq<Entry<LedHist>>, prefix: string, sqrt: real -> real)
    : (r: Result<Curve, CurveError>)
    requires IsSqrt(sqrt)
    ensures r == Failure(NoFiles) <==> forall e :: e in entries ==> !Matches(e.name, prefix)
    ensures r == Failure(NoValidPoints) <==>
              && (exists e :: e in entries && Matches(e.name, prefix))
              && (forall e :: e in entries && Matches(e.name, prefix) ==> LedPoint(e, sqrt).None?)
    ensures r.Success? ==> WellFormedCurve(r.value) && |r.value.voltages| >= 1
    ensures r.Success? ==> forall i, j :: 0 <= i < j < |r.value.voltages| ==> r.value.voltages[i] <= r.value.voltages[j]
    ensures r.Success? ==> forall p :: p in Zip(r.value) ==>
              exists e :: e in entries && Matches(e.name, prefix) && LedPoint(e, sqrt) == Some(p)
    ensures r.Success? ==> forall e :: e in entries && Matches(e.name, prefix) && LedPoint(e, sqrt).Some? ==>
              LedPoint(e, sqrt).value in Zip(r.value)
    ensures r.Success? ==> multiset(Zip(r.value)) == multiset(Process(Filter(entries, prefix), LedPointOf(sqrt)))
    ensures r.Success? ==> forall p ::
              Sorting.Tied(Zip(r.value), ByVoltage, p) == Sorting.Tied(Process(SelectFiles(entries, prefix), LedPointOf(sqrt)), ByVoltage, p)
  {
    ResolutionCurve(entries, prefix, LedPointOf(sqrt))
  }

  /** Each point of the curve comes from a usable file `e`: its voltage is the file's, its
      resolution is 100 * rms / mean of that file, its voltage error is 0 and its
      resolution error is not negative. */
  lemma CurvePointsFromFiles(entries: seq<Entry<LedHist>>, prefix: string, sqrt: real -> real, c: Curve, i: int)
    returns (e: Entry<LedHist>)
    requires IsSqrt(sqrt)
    requires ComputeResolutionPoints(entries, prefix, sqrt) == Success(c)
    requires 0 <= i < |c.voltages|
    ensures c.vErrors[i] == 0.0 && c.resErrors[i] >= 0.0
    ensures e in entries && Matches(e.name, prefix) && GoodMoments(e.data)
    ensures ParseVoltage(e.name) == Some(c.voltages[i])
    ensures IsResolutionOf(c.resolutions[i], e.data)
  {
    var p := Zip(c)[i];
    assert p == Point(c.voltages[i], c.resolutions[i], c.vErrors[i], c.resErrors[i]);
    assert p in Zip(c);
    e :| e in entries && Matches(e.name, prefix) && LedPoint(e, sqrt) == Some(p);
    LedPointFacts(e, sqrt, p);
  }

  lemma LedPointFacts(e: Entry<LedHist>, sqrt: real -> real, p: Point)
    requires IsSqrt(sqrt)
    requires LedPoint(e, sqrt) == Some(p)
    ensures GoodMoments(e.data) && ParseVoltage(e.name) == Some(p.v)
    ensures p.vErr == 0.0 && p.resErr >= 0.0
    ensures IsResolutionOf(p.res, e.data)
  {
    var h := e.data;
    var v := ParseVoltage(e.name).value;
    var q := RatioPoint(v, h.mean.value, h.rms.value, h.meanErr, h.rmsErr, sqrt);
    assert p == q;
  }
}
