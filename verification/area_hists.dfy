/** The per-voltage area histogram script (Test_LED_Analysis/Res_area/plot_hist_area.py):
    for each `hist_area_*.csv` file, the histogram, the RMS / mean resolution and the
    resolution of a Gaussian fit, which falls back on the moments when the fit fails. */
module AreaHists {
  import opened Wrappers
  import opened HistModel
  import ScopeResolution

  const AreaPrefix: string := "hist_area_"

  /** One area CSV: its rows, ROOT's mean and RMS of the filled histogram, and the outcome
      of the Gaussian fit over the full range. */
  datatype AreaFile = AreaFile(rows: seq<Row>, mean: real, rms: real, fit: ScopeResolution.FitOutcome)

  /** The fit-based numbers of one file: whether the fit converged, the mean and width
      used and their ratio. */
  datatype FitResolution = FitResolution(converged: bool, meanFit: real, sigmaFit: real, resolution: real)

  /** Lines 130-140: the fit's mean and sigma when it converged, otherwise the histogram's
      mean and RMS; the resolution is their zero-guarded ratio. */
  function ChooseFit(fit: ScopeResolution.FitOutcome, mean: real, rms: real): (c: FitResolution)
    ensures c.converged <==> fit.status == 0
    ensures !c.converged ==> c.meanFit == mean && c.sigmaFit == rms
    ensures c.converged ==> c.meanFit == fit.mean && c.sigmaFit == fit.sigma
    ensures c.meanFit != 0.0 ==> IsRatio(c.resolution, c.sigmaFit, c.meanFit)
    ensures c.meanFit == 0.0 ==> c.resolution == 0.0
  {
    var converged := fit.status == 0;
    var meanFit := if converged then fit.mean else mean;
    var sigmaFit := if converged then fit.sigma else rms;
    FitResolution(converged, meanFit, sigmaFit, RatioOrZero(sigmaFit, meanFit))
  }

  /** When the fit fails, the fit resolution is the RMS / mean resolution (line 109). */
  lemma FailedFitGivesMomentResolution(fit: ScopeResolution.FitOutcome, mean: real, rms: real)
    requires fit.status != 0
    ensures ChooseFit(fit, mean, rms).resolution == RatioOrZero(rms, mean)
  {
  }

  /** What the script derives from one file. `voltage` is None for "unknown". */
  datatype AreaSummary = AreaSummary(
    voltage: Option<real>,
    hist: Hist,
    resolutionRms: real,
    sigma0: real,
    fit: FitResolution)

  /** `sigma0` as line 126 writes it: the RMS if positive, else a tenth of the mean, else 1.
      Unlike the oscilloscope script it takes no absolute value, so a negative mean gives a
      negative starting width. */
  function InitialSigmaAsWritten(rms: real, mean: real): (s: real)
    ensures rms > 0.0 ==> s == rms
    ensures rms <= 0.0 && mean == 0.0 ==> s == 1.0
    ensures rms <= 0.0 && mean != 0.0 ==> s == 0.1 * mean
    ensures s <= 0.0 <==> rms <= 0.0 && mean < 0.0
  {
    if rms > 0.0 then rms else if mean != 0.0 then 0.1 * mean else 1.0
  }

  /** A histogram with no spread and a negative mean gets a negative starting width; the
      oscilloscope script's version, which the summary uses, gives a positive one. */
  lemma AsWrittenSigmaCanBeNegative()
    ensures InitialSigmaAsWritten(0.0, -1.0) < 0.0
    ensures ScopeResolution.InitialSigmaArea(0.0, -1.0) > 0.0
  {
  }

  /** The two agree whenever the mean is not negative. */
  lemma AsWrittenAgreesForNonNegativeMean(rms: real, mean: real)
    requires mean >= 0.0
    ensures InitialSigmaAsWritten(rms, mean) == ScopeResolution.InitialSigmaArea(rms, mean)
  {
  }

  /** The summary of one file, or None when it has fewer than two valid rows (lines 82-140).
      A file whose name has no voltage is still processed. */
  function Summarise(e: Entry<AreaFile>, sqrt: real -> real): (r: Option<AreaSummary>)
    requires IsSqrt(sqrt)
    ensures r.None? <==> |ReadBinnedHistCsv(e.data.rows).x| < 2
    ensures r.Some? ==>
              && r.value.voltage == ParseVoltage(e.name)
              && Some(r.value.hist) == MakeHist(ReadBinnedHistCsv(e.data.rows), sqrt)
              && r.value.resolutionRms == RatioOrZero(e.data.rms, e.data.mean)
              && r.value.sigma0 > 0.0 && (e.data.rms > 0.0 ==> r.value.sigma0 == e.data.rms)
              && r.value.fit == ChooseFit(e.data.fit, e.data.mean, e.data.rms)
  {
    var h := e.data;
    match MakeHist(ReadBinnedHistCsv(h.rows), sqrt)
    case None => None
    case Some(hist) =>
      Some(AreaSummary(ParseVoltage(e.name), hist, RatioOrZero(h.rms, h.mean),
                       ScopeResolution.InitialSigmaArea(h.rms, h.mean), ChooseFit(h.fit, h.mean, h.rms)))
  }

  /** The per-file step as a function value: Summarise of every file. */
  function SummaryOf(sqrt: real -> real): (f: Entry<AreaFile> --> Option<AreaSummary>)
    ensures IsSqrt(sqrt) ==> forall e :: f.requires(e) && f(e) == Summarise(e, sqrt)
  {
    e requires IsSqrt(sqrt) => Summarise(e, sqrt)
  }

  /** The whole run: fails when no file matches; otherwise one summary per usable file,
      in file-name order. */
  function AreaScan(entries: seq<Entry<AreaFile>>, sqrt: real -> real): (r: Result<seq<AreaSummary>, CurveError>)
    requires IsSqrt(sqrt)
    ensures r.Failure? <==> forall e :: e in entries ==> !Matches(e.name, AreaPrefix)
    ensures r.Failure? ==> r.error == NoFiles
    ensures r.Success? ==> forall s :: s in r.value ==>
              exists e :: e in entries && Matches(e.name, AreaPrefix) && Summarise(e, sqrt) == Some(s)
    ensures r.Success? ==> forall e :: e in entries && Matches(e.name, AreaPrefix) && Summarise(e, sqrt).Some? ==>
              Summarise(e, sqrt).value in r.value
    ensures r.Success? ==> r.value == Process(SelectFiles(entries, AreaPrefix), SummaryOf(sqrt))
    ensures r.Success? ==> multiset(r.value) == multiset(Process(Filter(entries, AreaPrefix), SummaryOf(sqrt)))
  {
    var files := SelectFiles(entries, AreaPrefix);
    if |files| == 0 then Failure(NoFiles)
    else
      assert files[0] in files;
      assert forall e :: e in Filter(entries, AreaPrefix) ==> e in entries;
      ProcessPermutation(Filter(entries, AreaPrefix), files, SummaryOf(sqrt));
      Success(Process(files, SummaryOf(sqrt)))
  }

  /** The body of the script's loop (lines 80-140) for one file, reading and filling with
      the scripts' own loops. */
  method SummariseFile(file: Entry<AreaFile>, sqrt: real -> real) returns (r: Option<AreaSummary>)
    requires IsSqrt(sqrt)
    ensures r == Summarise(file, sqrt)
  {
    var x, y := ReadBinnedHistCsvLoop(file.data.rows);
    if |x| < 2 {
      return None;
    }
    var h := FillHist(x, y, sqrt);
    var mean := file.data.mean;
    var rms := file.data.rms;
    var resolutionRms := if mean != 0.0 then rms / mean else 0.0;
    var sigma0 := ScopeResolution.InitialSigmaArea(rms, mean);
    var meanFit, sigmaFit;
    if file.data.fit.status != 0 {
      meanFit, sigmaFit := mean, rms;
    } else {
      meanFit, sigmaFit := file.data.fit.mean, file.data.fit.sigma;
    }
    var resolutionFit := if meanFit != 0.0 then sigmaFit / meanFit else 0.0;
    r := Some(AreaSummary(ParseVoltage(file.name), h, resolutionRms, sigma0,
                          FitResolution(file.data.fit.status == 0, meanFit, sigmaFit, resolutionFit)));
  }

  /** The script's loop over the matching files (lines 73-78). */
  method RunAreaScript(entries: seq<Entry<AreaFile>>, sqrt: real -> real) returns (r: Result<seq<AreaSummary>, CurveError>)
    requires IsSqrt(sqrt)
    ensures r == AreaScan(entries, sqrt)
  {
    var files := SelectFiles(entries, AreaPrefix);
    if |files| == 0 {
      return Failure(NoFiles);
    }
    var f := SummaryOf(sqrt);
    var out := [];
    var i := 0;
    while i < |files|
      invariant 0 <= i <= |files|
      invariant out == Process(files[..i], f)
    {
      ProcessSnoc(files, f, i);
      var s := SummariseFile(files[i], sqrt);
      if s.Some? {
        out := out + [s.value];
      }
      i := i + 1;
    }
    assert files[..i] == files;
    r := Success(out);
  }
}
