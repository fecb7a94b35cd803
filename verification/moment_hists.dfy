/** The two histogram scripts that report only RMS / mean: the amplitude script
    (Test_LED_Analysis/Res_amplitude/plot_all_amplitude_hists.py), which reads the
    `hist_amplitude_*.csv` files, and the area script (Test_LED_Analysis/plot_hist_area.py),
    which reads every `.csv` file. Both inline the shared reader, edge builder and fill. */
module MomentHists {
  import opened Wrappers
  import opened Text
  import opened HistModel

  const AmplitudePrefix: string := "hist_amplitude_"

  /** The area script filters on the `.csv` suffix only. */
  const AnyPrefix: string := ""

  /** One CSV file: its rows and ROOT's mean and RMS of the filled histogram. */
  datatype MomentFile = MomentFile(rows: seq<Row>, mean: real, rms: real)

  /** What either script derives from one file. `voltage` is None for "unknown". */
  datatype MomentSummary = MomentSummary(voltage: Option<real>, hist: Hist, resolution: real)

  /** The summary of one file, or None when it has fewer than two valid rows. A file whose
      name has no voltage is still processed. */
  function Summarise(e: Entry<MomentFile>, sqrt: real -> real): (r: Option<MomentSummary>)
    requires IsSqrt(sqrt)
    ensures r.None? <==> |ReadBinnedHistCsv(e.data.rows).x| < 2
    ensures r.Some? ==>
              && r.value.voltage == ParseVoltage(e.name)
              && Some(r.value.hist) == MakeHist(ReadBinnedHistCsv(e.data.rows), sqrt)
              && r.value.resolution == RatioOrZero(e.data.rms, e.data.mean)
  {
    match MakeHist(ReadBinnedHistCsv(e.data.rows), sqrt)
    case None => None
    case Some(hist) => Some(MomentSummary(ParseVoltage(e.name), hist, RatioOrZero(e.data.rms, e.data.mean)))
  }

  /** The per-file step as a function value: Summarise of every file. */
  function SummaryOf(sqrt: real -> real): (f: Entry<MomentFile> --> Option<MomentSummary>)
    ensures IsSqrt(sqrt) ==> forall e :: f.requires(e) && f(e) == Summarise(e, sqrt)
  {
    e requires IsSqrt(sqrt) => Summarise(e, sqrt)
  }

  /** A whole run over the files matching `prefix`: fails when there are none; otherwise
      one summary per usable file, in file-name order. */
  function MomentScan(entries: seq<Entry<MomentFile>>, prefix: string, sqrt: real -> real)
    : (r: Result<seq<MomentSummary>, CurveError>)
    requires IsSqrt(sqrt)
    ensures r.Failure? <==> forall e :: e in entries ==> !Matches(e.name, prefix)
    ensures r.Failure? ==> r.error == NoFiles
    ensures r.Success? ==> forall s :: s in r.value ==>
              exists e :: e in entries && Matches(e.name, prefix) && Summarise(e, sqrt) == Some(s)
    ensures r.Success? ==> forall e :: e in entries && Matches(e.name, prefix) && Summarise(e, sqrt).Some? ==>
              Summarise(e, sqrt).value in r.value
    ensures r.Success? ==> r.value == Process(SelectFiles(entries, prefix), SummaryOf(sqrt))
    ensures r.Success? ==> multiset(r.value) == multiset(Process(Filter(entries, prefix), SummaryOf(sqrt)))
  {
    var files := SelectFiles(entries, prefix);
    if |files| == 0 then Failure(NoFiles)
    else
      assert files[0] in files;
      assert forall e :: e in Filter(entries, prefix) ==> e in entries;
      ProcessPermutation(Filter(entries, prefix), files, SummaryOf(sqrt));
      Success(Process(files, SummaryOf(sqrt)))
  }

  /** The empty prefix selects exactly the `.csv` files. */
  lemma AnyPrefixMatchesEveryCsv(name: string)
    ensures Matches(name, AnyPrefix) <==> EndsWith(name, ".csv")
  {
    assert name[..|AnyPrefix|] == AnyPrefix;
  }

  /** The loop body both scripts inline for one file, with the scripts' own reading and
      filling loops. */
  method SummariseFile(file: Entry<MomentFile>, sqrt: real -> real) returns (r: Option<MomentSummary>)
    requires IsSqrt(sqrt)
    ensures r == Summarise(file, sqrt)
  {
    var x, y := ReadBinnedHistCsvLoop(file.data.rows);
    if |x| < 2 {
      return None;
    }
    var h := FillHist(x, y, sqrt);
    var mean := file.data.mean;
    var rms := file.data.rms;
    var resolution := if mean != 0.0 then rms / mean else 0.0;
    r := Some(MomentSummary(ParseVoltage(file.name), h, resolution));
  }

  /** The loop over the files matching `prefix`. */
  method RunScan(entries: seq<Entry<MomentFile>>, prefix: string, sqrt: real -> real)
    returns (r: Result<seq<MomentSummary>, CurveError>)
    requires IsSqrt(sqrt)
    ensures r == MomentScan(entries, prefix, sqrt)
  {
    var files := SelectFiles(entries, prefix);
    if |files| == 0 {
      return Failure(NoFiles);
    }
    var f := SummaryOf(sqrt);
    var out := [];
    var i := 0;
    while i < |files|
      invariant 0 <= i <= |files|
      invariant out == Process(files[..i], f)
    {
      ProcessSnoc(files, f, i);
      var s := SummariseFile(files[i], sqrt);
      if s.Some? {
        out := out + [s.value];
      }
      i := i + 1;
    }
    assert files[..i] == files;
    r := Success(out);
  }

  /** The area script: every `.csv` file. */
  method RunAllAreaScript(entries: seq<Entry<MomentFile>>, sqrt: real -> real)
    returns (r: Result<seq<MomentSummary>, CurveError>)
    requires IsSqrt(sqrt)
    ensures r == MomentScan(entries, AnyPrefix, sqrt)
    ensures r.Failure? <==> forall e :: e in entries ==> !EndsWith(e.name, ".csv")
  {
    r := RunScan(entries, AnyPrefix, sqrt);
    forall e | e in entries {
      AnyPrefixMatchesEveryCsv(e.name);
    }
  }
}
