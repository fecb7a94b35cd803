/** The oscilloscope resolution script (Test_LED_oscilloscope_Analysis/plot_resolution_vs_voltage.py):
    resolution sigma / mu from a Gaussian fit over the whole area histogram, or over a
    window around the amplitude peak, falling back on moments when the fit fails. */
module ScopeResolution {
  import opened Wrappers
  import opened HistModel
  import Sorting

  // ---------------------------------------------------------------------------
  // Weighted moments over a range of bins (lines 77-93)
  // ---------------------------------------------------------------------------

  /** `GetBinContent(b)`: the counts of bins 1..n; the underflow and overflow bins and
      anything beyond them are never filled, so they hold 0. */
  function Content(y: seq<real>, b: int): real {
    if 1 <= b <= |y| then y[b - 1] else 0.0
  }

  /** `GetBinCenter(b)` for the bins that can hold counts. Outside 1..n the weight is 0,
      so the centre there never contributes and is taken as 0. */
  function Centre(e: seq<real>, y: seq<real>, b: int): real
    requires |e| == |y| + 1
  {
    if 1 <= b <= |y| then BinCentre(e, b) else 0.0
  }

  function Sq(d: real): (r: real)
    ensures r >= 0.0
  {
    d * d
  }

  /** Sum of weights, of weight times centre and of weight times centre squared. */
  datatype Sums = Sums(w: real, wx: real, wx2: real)

  function Add(a: Sums, b: Sums): Sums {
    Sums(a.w + b.w, a.wx + b.wx, a.wx2 + b.wx2)
  }

  /** What bin `b` adds to the three sums. */
  function BinSums(y: seq<real>, e: seq<real>, b: int): Sums
    requires |e| == |y| + 1
  {
    var w := Content(y, b);
    var x := Centre(e, y, b);
    Sums(w, w * x, w * Sq(x))
  }

  /** The three running sums of `weighted_mean_rms_in_bins` over bins `lo..hi`
      inclusive; empty when `hi < lo`. */
  function WindowSums(y: seq<real>, e: seq<real>, lo: int, hi: int): (s: Sums)
    requires |e| == |y| + 1
    decreases if hi < lo then 0 else hi - lo + 1
  {
    if hi < lo then Sums(0.0, 0.0, 0.0)
    else Add(WindowSums(y, e, lo, hi - 1), BinSums(y, e, hi))
  }

  /** What bin `b` adds to the spread about `m`: its weight times the squared distance. */
  function BinSpread(y: seq<real>, e: seq<real>, b: int, m: real): real
    requires |e| == |y| + 1
  {
    Content(y, b) * Sq(Centre(e, y, b) - m)
  }

  /** The weighted spread about `m` of bins `lo..hi`. */
  function Spread(y: seq<real>, e: seq<real>, lo: int, hi: int, m: real): real
    requires |e| == |y| + 1
    decreases if hi < lo then 0 else hi - lo + 1
  {
    if hi < lo then 0.0
    else Spread(y, e, lo, hi - 1, m) + BinSpread(y, e, hi, m)
  }

  /** `p` is the spread about `m` written with the three sums:
      sum w x^2 - 2 m sum w x + m^2 sum w. */
  predicate IsExpansion(p: real, s: Sums, m: real) {
    p == s.wx2 - 2.0 * m * s.wx + m * m * s.w
  }

  /** The spread is what the three sums give, so the one-pass formula of the source
      computes the weighted spread. */
  lemma {:induction false} SpreadExpands(y: seq<real>, e: seq<real>, lo: int, hi: int, m: real)
    requires |e| == |y| + 1
    ensures IsExpansion(Spread(y, e, lo, hi, m), WindowSums(y, e, lo, hi), m)
    decreases if hi < lo then 0 else hi - lo + 1
  {
    if hi >= lo {
      SpreadExpands(y, e, lo, hi - 1, m);
      BinExpands(y, e, hi, m);
      ExpansionAdds(Spread(y, e, lo, hi - 1, m), WindowSums(y, e, lo, hi - 1), BinSpread(y, e, hi, m), BinSums(y, e, hi), m);
    }
  }

  lemma BinExpands(y: seq<real>, e: seq<real>, b: int, m: real)
    requires |e| == |y| + 1
    ensures IsExpansion(BinSpread(y, e, b, m), BinSums(y, e, b), m)
  {
    SquareExpands(Content(y, b), Centre(e, y, b), m);
  }

  lemma SquareExpands(w: real, x: real, m: real)
    ensures IsExpansion(w * Sq(x - m), Sums(w, w * x, w * Sq(x)), m)
  {
  }

  /** Expansions of two parts add up to the expansion of the whole. */
  lemma ExpansionAdds(p: real, s: Sums, d: real, b: Sums, m: real)
    requires IsExpansion(p, s, m) && IsExpansion(d, b, m)
    ensures IsExpansion(p + d, Add(s, b), m)
  {
  }

  predicate NonNegativeCounts(y: seq<real>) {
    forall k :: 0 <= k < |y| ==> y[k] >= 0.0
  }

  lemma {:induction false} SpreadNonNegative(y: seq<real>, e: seq<real>, lo: int, hi: int, m: real)
    requires |e| == |y| + 1 && NonNegativeCounts(y)
    ensures Spread(y, e, lo, hi, m) >= 0.0
    decreases if hi < lo then 0 else hi - lo + 1
  {
    if hi >= lo {
      SpreadNonNegative(y, e, lo, hi - 1, m);
      var w := Content(y, hi);
      assert w >= 0.0;
      var d := Sq(Centre(e, y, hi) - m);
      assert w * d >= 0.0;
    }
  }

  /** Mean, RMS and total weight of a window. */
  datatype Moments = Moments(mean: real, rms: real, n: real)

  /** `weighted_mean_rms_in_bins` on the sums of a window: all zero when the total weight
      is not positive; otherwise the weighted mean, the square root of the one-pass
      variance (0 when that is not positive) and the total weight. */
  function MomentsOf(s: Sums, sqrt: real -> real): (r: Moments)
    requires IsSqrt(sqrt)
    ensures s.w <= 0.0 ==> r == Moments(0.0, 0.0, 0.0)
    ensures s.w > 0.0 ==> r.n == s.w && IsRatio(r.mean, s.wx, r.n) && r.rms >= 0.0
  {
    if s.w <= 0.0 then Moments(0.0, 0.0, 0.0)
    else
      var mean := s.wx / s.w;
      var variance := s.wx2 / s.w - mean * mean;
      Moments(mean, if variance > 0.0 then sqrt(variance) else 0.0, s.w)
  }

  function WeightedMeanRms(y: seq<real>, e: seq<real>, lo: int, hi: int, sqrt: real -> real): Moments
    requires |e| == |y| + 1 && IsSqrt(sqrt)
  {
    MomentsOf(WindowSums(y, e, lo, hi), sqrt)
  }

  /** With non-negative counts the one-pass formula is the weighted variance: the squared
      RMS times the weight is the spread about the mean, so clamping at 0 never loses
      anything. */
  lemma RmsIsWeightedSpread(y: seq<real>, e: seq<real>, lo: int, hi: int, sqrt: real -> real)
    requires |e| == |y| + 1 && IsSqrt(sqrt) && NonNegativeCounts(y)
    requires WindowSums(y, e, lo, hi).w > 0.0
    ensures var r := WeightedMeanRms(y, e, lo, hi, sqrt);
            IsVarianceOf(r.rms, r.n, Spread(y, e, lo, hi, r.mean))
  {
    var s := WindowSums(y, e, lo, hi);
    var m := MomentsOf(s, sqrt).mean;
    SpreadExpands(y, e, lo, hi, m);
    SpreadNonNegative(y, e, lo, hi, m);
    MomentsVariance(s, Spread(y, e, lo, hi, m), sqrt);
  }

  lemma MomentsVariance(s: Sums, spread: real, sqrt: real -> real)
    requires IsSqrt(sqrt) && s.w > 0.0 && spread >= 0.0
    requires IsExpansion(spread, s, MomentsOf(s, sqrt).mean)
    ensures var r := MomentsOf(s, sqrt); IsVarianceOf(r.rms, r.n, spread)
  {
    var r := MomentsOf(s, sqrt);
    var v := s.wx2 / s.w - r.mean * r.mean;
    VarianceAlgebra(s.w, s.wx, s.wx2, r.mean, v, spread, r.rms);
  }

  /** `rms ** 2 * n == spread`. */
  predicate IsVarianceOf(rms: real, n: real, spread: real) {
    rms * rms * n == spread
  }

  /** The one-pass variance times the weight is the expanded spread; as the spread is not
      negative, clamping a non-positive variance to 0 is exact. */
  lemma VarianceAlgebra(w: real, wx: real, wx2: real, m: real, v: real, spread: real, rms: real)
    requires w > 0.0 && m == wx / w && v == wx2 / w - m * m
    requires spread == wx2 - 2.0 * m * wx + m * m * w && spread >= 0.0
    requires v > 0.0 ==> rms * rms == v
    requires v <= 0.0 ==> rms == 0.0
    ensures IsVarianceOf(rms, w, spread)
  {
    assert wx == m * w;
    assert w * (wx2 / w) == wx2;
    assert spread == w * v;
    if v > 0.0 {
      assert rms * rms * w == v * w;
    } else {
      assert w * v <= 0.0;
    }
  }

  // ---------------------------------------------------------------------------
  // Gaussian fit results and sigma / mu with its error (lines 95-133)
  // ---------------------------------------------------------------------------

  /** What ROOT's fit returns: the status and parameters 1 and 2 (mean, sigma) with their
      errors. */
  datatype FitOutcome = FitOutcome(status: int, mean: real, meanErr: real, sigma: real, sigmaErr: real)

  /** What `gauss_fit` hands back: the status, and the parameters only if the fit
      converged. */
  datatype GaussFit = GaussFit(status: int, mu: Option<real>, muErr: Option<real>, sig: Option<real>, sigErr: Option<real>)

  function ReportFit(f: FitOutcome): (g: GaussFit)
    ensures g.status == f.status
    ensures f.status != 0 ==> g.mu.None? && g.muErr.None? && g.sig.None? && g.sigErr.None?
    ensures f.status == 0 ==> g.mu == Some(f.mean) && g.muErr == Some(f.meanErr)
                              && g.sig == Some(f.sigma) && g.sigErr == Some(f.sigmaErr)
  {
    if f.status != 0 then GaussFit(f.status, None, None, None, None)
    else GaussFit(f.status, Some(f.mean), Some(f.meanErr), Some(f.sigma), Some(f.sigmaErr))
  }

  /** A resolution and its error. */
  datatype RatioErr = RatioErr(res: real, err: real)

  /** `res_and_err_from_sigma_mu`: R = sigma / mu with the error propagated from the
      errors of sigma and mu; (0, 0) when mu is missing or 0 or sigma is missing, and
      error 0 when sigma is 0 or an error is missing. */
  function ResAndErr(sigma: Option<real>, sigmaErr: Option<real>, mu: Option<real>, muErr: Option<real>, sqrt: real -> real)
    : (r: RatioErr)
    requires IsSqrt(sqrt)
    ensures mu.None? || sigma.None? || mu == Some(0.0) ==> r == RatioErr(0.0, 0.0)
    ensures mu.Some? && sigma.Some? && mu.value != 0.0 ==> IsRatio(r.res, sigma.value, mu.value)
    ensures r.err >= 0.0
    ensures sigma == Some(0.0) || sigmaErr.None? || muErr.None? ==> r.err == 0.0
    ensures mu.Some? && sigma.Some? && sigmaErr.Some? && muErr.Some? && mu.value != 0.0 && sigma.value != 0.0 ==>
              IsPropagatedError(r.err, r.res, RelErrorSquared(sigma.value, sigmaErr.value, mu.value, muErr.value))
  {
    if mu == Some(0.0) || sigma.None? || mu.None? then RatioErr(0.0, 0.0)
    else
      var ratio := sigma.value / mu.value;
      if sigma.value == 0.0 then RatioErr(ratio, 0.0)
      else if sigmaErr.Some? && muErr.Some? then
        RatioErr(ratio, RatioError(ratio, RelErrorSquared(sigma.value, sigmaErr.value, mu.value, muErr.value), sqrt))
      else
        RatioErr(ratio, 0.0)
  }

  /** Error estimates of the fallback: `sig / sqrt(N)` for the mean and `sig / sqrt(2 N)`
      for the width, both 0 when N is not positive. */
  datatype FallbackErrs = FallbackErrs(muErr: real, sigErr: real)

  function FallbackErrors(sig: real, n: real, sqrt: real -> real): (r: FallbackErrs)
    requires IsSqrt(sqrt)
    ensures n <= 0.0 ==> r == FallbackErrs(0.0, 0.0)
    ensures n > 0.0 ==> IsStandardError(r.muErr, sig, n) && IsStandardError(r.sigErr, sig, 2.0 * n)
  {
    if n > 0.0 then
      StandardError(sig, n, sqrt);
      StandardError(sig, 2.0 * n, sqrt);
      FallbackErrs(sig / sqrt(n), sig / sqrt(2.0 * n))
    else FallbackErrs(0.0, 0.0)
  }

  /** `err ** 2 * n == sig ** 2`: the error of a mean of `n` samples with spread `sig`. */
  predicate IsStandardError(err: real, sig: real, n: real) {
    err * err * n == sig * sig
  }

  lemma StandardError(sig: real, n: real, sqrt: real -> real)
    requires IsSqrt(sqrt) && n > 0.0
    ensures sqrt(n) != 0.0 && IsStandardError(sig / sqrt(n), sig, n)
  {
    var s := sqrt(n);
    assert s * s == n;
    assert s != 0.0;
    var q := sig / s;
    assert q * s == sig;
    assert q * q * n == (q * s) * (q * s);
  }

  /** The fallback when the fit is unusable: R = sig / mu (0 when mu is 0) with the
      error propagated from the fallback error estimates. */
  function Fallback(mu: real, sig: real, n: real, sqrt: real -> real): (r: RatioErr)
    requires IsSqrt(sqrt)
    ensures mu == 0.0 ==> r == RatioErr(0.0, 0.0)
    ensures mu != 0.0 ==> IsRatio(r.res, sig, mu)
    ensures r.err >= 0.0
    ensures n <= 0.0 || sig == 0.0 ==> r.err == 0.0
    ensures mu != 0.0 && sig != 0.0 ==>
              var errs := FallbackErrors(sig, n, sqrt);
              IsPropagatedError(r.err, r.res, RelErrorSquared(sig, errs.sigErr, mu, errs.muErr))
  {
    var errs := FallbackErrors(sig, n, sqrt);
    var re := ResAndErr(Some(sig), Some(errs.sigErr), Some(mu), Some(errs.muErr), sqrt);
    assert mu != 0.0 && sig != 0.0 ==> RelErrorSquared(sig, 0.0, mu, 0.0) == 0.0;
    assert mu != 0.0 ==> re.res == sig / mu;
    RatioErr(RatioOrZero(sig, mu), re.err)
  }

  // ---------------------------------------------------------------------------
  // Initial widths handed to the fits (lines 179, 264)
  // ---------------------------------------------------------------------------

  function Abs(x: real): (r: real)
    ensures r >= 0.0 && (r == x || r == -x)
  {
    if x < 0.0 then -x else x
  }

  /** `sigma0` of the area fit: the RMS if positive, else a tenth of the mean's size,
      else 1. */
  function InitialSigmaArea(rms: real, mean: real): (s: real)
    ensures s > 0.0
    ensures rms > 0.0 ==> s == rms
    ensures rms <= 0.0 && mean != 0.0 ==> s == 0.1 * Abs(mean)
    ensures rms <= 0.0 && mean == 0.0 ==> s == 1.0
  {
    if rms > 0.0 then rms else if mean != 0.0 then 0.1 * Abs(mean) else 1.0
  }

  /** `sigma0` of the window fit: the window RMS if positive, else 2% of the peak's size. */
  function InitialSigmaWindow(sigW: real, peak: real): (s: real)
    ensures s >= 0.0
    ensures s == 0.0 <==> sigW <= 0.0 && peak == 0.0
    ensures sigW > 0.0 ==> s == sigW
    ensures sigW <= 0.0 ==> s == 0.02 * Abs(peak)
  {
    if sigW > 0.0 then sigW else 0.02 * Abs(peak)
  }

  // ---------------------------------------------------------------------------
  // Area scan (lines 138-214)
  // ---------------------------------------------------------------------------

  /** One area CSV: its rows, ROOT's mean and RMS of the histogram, and the fit outcome. */
  datatype AreaHist = AreaHist(rows: seq<Row>, mean: real, rms: real, fit: FitOutcome)

  /** `h.Integral()`: the sum of the bin contents. */
  function Integral(y: seq<real>): real {
    if |y| == 0 then 0.0 else Integral(y[..|y| - 1]) + y[|y| - 1]
  }

  /** The total count is the weight of the window spanning every bin. */
  lemma {:induction false} IntegralIsFullWindow(y: seq<real>, e: seq<real>)
    requires |e| == |y| + 1
    ensures Integral(y) == WindowSums(y, e, 1, |y|).w
  {
    WindowPrefix(y, e, |y|);
    assert y[..|y|] == y;
  }

  lemma {:induction false} WindowPrefix(y: seq<real>, e: seq<real>, k: nat)
    requires |e| == |y| + 1 && k <= |y|
    ensures Integral(y[..k]) == WindowSums(y, e, 1, k).w
  {
    if k > 0 {
      WindowPrefix(y, e, k - 1);
      assert y[..k][..k - 1] == y[..k - 1];
    }
  }

  /** The fit is used when it converged with a non-zero mean (line 188). */
  predicate AreaFitUsed(f: FitOutcome) {
    f.status == 0 && f.mean != 0.0
  }

  /** Resolution of one area histogram: sigma / mu of the fit, or the moment fallback with
      the total count as N. */
  function AreaResolution(h: AreaHist, y: seq<real>, sqrt: real -> real): (r: RatioErr)
    requires IsSqrt(sqrt)
    ensures r.err >= 0.0
    ensures AreaFitUsed(h.fit) ==> IsRatio(r.res, h.fit.sigma, h.fit.mean)
    ensures AreaFitUsed(h.fit) && h.fit.sigma != 0.0 ==>
              IsPropagatedError(r.err, r.res, RelErrorSquared(h.fit.sigma, h.fit.sigmaErr, h.fit.mean, h.fit.meanErr))
    ensures !AreaFitUsed(h.fit) ==> r == Fallback(h.mean, h.rms, Integral(y), sqrt)
  {
    var g := ReportFit(h.fit);
    if g.status == 0 && g.mu.Some? && g.mu.value != 0.0 then
      ResAndErr(g.sig, g.sigErr, g.mu, g.muErr, sqrt)
    else
      Fallback(h.mean, h.rms, Integral(y), sqrt)
  }

  /** The point of one area file, or None when the name has no voltage or the file has
      fewer than two rows. */
  function AreaPoint(e: Entry<AreaHist>, sqrt: real -> real): (r: Option<Point>)
    requires IsSqrt(sqrt)
    ensures r.Some? <==> ParseVoltage(e.name).Some? && |ReadBinnedHistCsv(e.data.rows).x| >= 2
    ensures r.Some? ==>
              var re := AreaResolution(e.data, ReadBinnedHistCsv(e.data.rows).y, sqrt);
              r.value == PercentPoint(ParseVoltage(e.name).value, re)
  {
    match ParseVoltage(e.name)
    case None => None
    case Some(v) =>
      var cols := ReadBinnedHistCsv(e.data.rows);
      if |cols.x| < 2 || BinEdges(cols.x).None? then None
      else Some(PercentPoint(v, AreaResolution(e.data, cols.y, sqrt)))
  }

  /** A curve point in percent with no voltage error. */
  function PercentPoint(v: real, re: RatioErr): (p: Point)
    ensures p.v == v && p.vErr == 0.0
    ensures p.res == 100.0 * re.res && p.resErr == 100.0 * re.err
  {
    Point(v, re.res * 100.0, 0.0, re.err * 100.0)
  }

  const AreaPrefix: string := "hist_area_"

  /** The per-file step as a function value: AreaPoint of every file. */
  function AreaPointOf(sqrt: real -> real): (f: Entry<AreaHist> --> Option<Point>)
    ensures IsSqrt(sqrt) ==> forall e :: f.requires(e) && f(e) == AreaPoint(e, sqrt)
  {
    e requires IsSqrt(sqrt) => AreaPoint(e, sqrt)
  }

  /** `compute_resolution_points_area`. */
  function ComputeAreaPoints(entries: seq<Entry<AreaHist>>, prefix: string, sqrt: real -> real)
    : (r: Result<Curve, CurveError>)
    requires IsSqrt(sqrt)
    ensures r == Failure(NoFiles) <==> forall e :: e in entries ==> !Matches(e.name, prefix)
    ensures r == Failure(NoValidPoints) <==>
              && (exists e :: e in entries && Matches(e.name, prefix))
              && (forall e :: e in entries && Matches(e.name, prefix) ==> AreaPoint(e, sqrt).None?)
    ensures r.Success? ==> WellFormedCurve(r.value) && |r.value.voltages| >= 1
    ensures r.Success? ==> forall i, j :: 0 <= i < j < |r.value.voltages| ==> r.value.voltages[i] <= r.value.voltages[j]
    ensures r.Success? ==> forall p :: p in Zip(r.value) ==>
              exists e :: e in entries && Matches(e.name, prefix) && AreaPoint(e, sqrt) == Some(p)
    ensures r.Success? ==> forall e :: e in entries && Matches(e.name, prefix) && AreaPoint(e, sqrt).Some? ==>
              AreaPoint(e, sqrt).value in Zip(r.value)
    ensures r.Success? ==> multiset(Zip(r.value)) == multiset(Process(Filter(entries, prefix), AreaPointOf(sqrt)))
    ensures r.Success? ==> forall p ::
              Sorting.Tied(Zip(r.value), ByVoltage, p) == Sorting.Tied(Process(SelectFiles(entries, prefix), AreaPointOf(sqrt)), ByVoltage, p)
  {
    ResolutionCurve(entries, prefix, AreaPointOf(sqrt))
  }

  // ---------------------------------------------------------------------------
  // Amplitude window scan (lines 216-298)
  // ---------------------------------------------------------------------------

  /** One amplitude CSV: its rows and the outcome of the fit in the window. */
  datatype WindowHist = WindowHist(rows: seq<Row>, fit: FitOutcome)

  /** The window around the peak: the peak bin's centre and the bins `FindBin` gives for
      0.8 and 1.2 times it. */
  datatype PeakWindow = PeakWindow(peakBin: nat, peak: real, lo: nat, hi: nat)

  function Window(y: seq<real>, e: seq<real>): (w: PeakWindow)
    requires |y| >= 1 && |e| == |y| + 1
    ensures 1 <= w.peakBin <= |y| && w.peak == BinCentre(e, w.peakBin)
    ensures forall k :: 0 <= k < |y| ==> y[k] <= y[w.peakBin - 1]
    ensures forall k :: 0 <= k < w.peakBin - 1 ==> y[k] < y[w.peakBin - 1]
    ensures w.lo == FindBin(e, 0.8 * w.peak) && w.hi == FindBin(e, 1.2 * w.peak)
  {
    var b := MaximumBin(y);
    var peak := BinCentre(e, b);
    PeakWindow(b, peak, FindBin(e, 0.8 * peak), FindBin(e, 1.2 * peak))
  }

  /** For increasing edges and a positive peak the window contains the peak bin. */
  lemma PeakInWindow(y: seq<real>, e: seq<real>)
    requires |y| >= 1 && |e| == |y| + 1 && StrictlyIncreasingReals(e)
    requires Window(y, e).peak > 0.0
    ensures var w := Window(y, e); w.lo <= w.peakBin <= w.hi
  {
    var w := Window(y, e);
    var b := w.peakBin;
    assert e[b - 1] < e[b];
    assert e[b - 1] <= w.peak < e[b];
    assert FindBin(e, w.peak) == b;
    FindBinMonotone(e, 0.8 * w.peak, w.peak);
    FindBinMonotone(e, w.peak, 1.2 * w.peak);
  }

  /** For a negative peak 0.8 * peak lies above 1.2 * peak, so the window runs backwards
      and holds at most one bin. */
  lemma NegativePeakWindow(y: seq<real>, e: seq<real>)
    requires |y| >= 1 && |e| == |y| + 1
    requires Window(y, e).peak < 0.0
    ensures var w := Window(y, e); w.hi <= w.lo
  {
    var w := Window(y, e);
    FindBinMonotone(e, 1.2 * w.peak, 0.8 * w.peak);
  }

  function WindowMoments(y: seq<real>, e: seq<real>, sqrt: real -> real): Moments
    requires |y| >= 1 && |e| == |y| + 1 && IsSqrt(sqrt)
  {
    var w := Window(y, e);
    WeightedMeanRms(y, e, w.lo, w.hi, sqrt)
  }

  /** A window is usable when it has positive weight and a non-zero mean (line 258). */
  predicate UsableWindow(m: Moments) {
    m.n > 0.0 && m.mean != 0.0
  }

  /** The fit is used when it converged (line 273). */
  predicate WindowFitUsed(f: FitOutcome) {
    f.status == 0
  }

  /** Resolution of one amplitude histogram: sigma / mu of the window fit, or the window
      moments with the window weight as N. */
  function WindowResolution(f: FitOutcome, m: Moments, sqrt: real -> real): (r: RatioErr)
    requires IsSqrt(sqrt)
    ensures r.err >= 0.0
    ensures WindowFitUsed(f) && f.mean != 0.0 ==> IsRatio(r.res, f.sigma, f.mean)
    ensures WindowFitUsed(f) && f.mean == 0.0 ==> r == RatioErr(0.0, 0.0)
    ensures WindowFitUsed(f) && f.sigma == 0.0 ==> r.err == 0.0
    ensures WindowFitUsed(f) && f.mean != 0.0 && f.sigma != 0.0 ==>
              IsPropagatedError(r.err, r.res, RelErrorSquared(f.sigma, f.sigmaErr, f.mean, f.meanErr))
    ensures !WindowFitUsed(f) ==> r == Fallback(m.mean, m.rms, m.n, sqrt)
  {
    var g := ReportFit(f);
    if g.status == 0 && g.mu.Some? && g.sig.Some? then
      ResAndErr(g.sig, g.sigErr, g.mu, g.muErr, sqrt)
    else
      Fallback(m.mean, m.rms, m.n, sqrt)
  }

  /** The point of one amplitude file, or None when the name has no voltage, the file has
      fewer than two rows, or the window is empty or has mean 0. */
  function WindowPoint(e: Entry<WindowHist>, sqrt: real -> real): (r: Option<Point>)
    requires IsSqrt(sqrt)
    ensures var cols := ReadBinnedHistCsv(e.data.rows);
            r.Some? <==> ParseVoltage(e.name).Some? && |cols.x| >= 2
                         && UsableWindow(WindowMoments(cols.y, BinEdges(cols.x).value, sqrt))
    ensures r.Some? ==>
              var cols := ReadBinnedHistCsv(e.data.rows);
              var m := WindowMoments(cols.y, BinEdges(cols.x).value, sqrt);
              r.value == PercentPoint(ParseVoltage(e.name).value, WindowResolution(e.data.fit, m, sqrt))
  {
    match ParseVoltage(e.name)
    case None => None
    case Some(v) =>
      var cols := ReadBinnedHistCsv(e.data.rows);
      match BinEdges(cols.x)
      case None => None
      case Some(edges) =>
        var m := WindowMoments(cols.y, edges, sqrt);
        if m.n <= 0.0 || m.mean == 0.0 then None
        else Some(PercentPoint(v, WindowResolution(e.data.fit, m, sqrt)))
  }

  const AmplitudePrefix: string := "hist_amplitude_"

  /** The per-file step as a function value: WindowPoint of every file. */
  function WindowPointOf(sqrt: real -> real): (f: Entry<WindowHist> --> Option<Point>)
    ensures IsSqrt(sqrt) ==> forall e :: f.requires(e) && f(e) == WindowPoint(e, sqrt)
  {
    e requires IsSqrt(sqrt) => WindowPoint(e, sqrt)
  }

  /** `compute_resolution_points_amp_gaus_window`. */
  function ComputeWindowPoints(entries: seq<Entry<WindowHist>>, prefix: string, sqrt: real -> real)
    : (r: Result<Curve, CurveError>)
    requires IsSqrt(sqrt)
    ensures r == Failure(NoFiles) <==> forall e :: e in entries ==> !Matches(e.name, prefix)
    ensures r == Failure(NoValidPoints) <==>
              && (exists e :: e in entries && Matches(e.name, prefix))
              && (forall e :: e in entries && Matches(e.name, prefix) ==> WindowPoint(e, sqrt).None?)
    ensures r.Success? ==> WellFormedCurve(r.value) && |r.value.voltages| >= 1
    ensures r.Success? ==> forall i, j :: 0 <= i < j < |r.value.voltages| ==> r.value.voltages[i] <= r.value.voltages[j]
    ensures r.Success? ==> forall p :: p in Zip(r.value) ==>
              exists e :: e in entries && Matches(e.name, prefix) && WindowPoint(e, sqrt) == Some(p)
    ensures r.Success? ==> forall e :: e in entries && Matches(e.name, prefix) && WindowPoint(e, sqrt).Some? ==>
              WindowPoint(e, sqrt).value in Zip(r.value)
    ensures r.Success? ==> multiset(Zip(r.value)) == multiset(Process(Filter(entries, prefix), WindowPointOf(sqrt)))
  {
    ResolutionCurve(entries, prefix, WindowPointOf(sqrt))
  }

  /** Points with equal voltage keep the order of the files they come from. */
  lemma ComputeWindowPointsStable(entries: seq<Entry<WindowHist>>, prefix: string, sqrt: real -> real)
    requires IsSqrt(sqrt)
    ensures var r := ComputeWindowPoints(entries, prefix, sqrt);
            r.Success? ==> forall p ::
              Sorting.Tied(Zip(r.value), ByVoltage, p) == Sorting.Tied(Process(SelectFiles(entries, prefix), WindowPointOf(sqrt)), ByVoltage, p)
  {
  }
}
