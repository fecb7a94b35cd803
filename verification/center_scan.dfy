/** Run selection of the centre finder (find_center.py): which scan runs become points of
    the position-versus-peak graph, and the name of each run's data file. */
module CenterScan {
  import opened Wrappers
  import opened Text
  import opened Sorting

  /** Peak position and its error, as fitted for one run. */
  datatype Peak = Peak(value: real, err: real)

  /** The graph handed to the Gaussian fit: one point per selected run. */
  datatype Graph = Graph(runs: seq<int>, x: seq<real>, y: seq<real>, ex: seq<real>, ey: seq<real>)

  datatype CenterError = NotEnoughPoints(got: nat)   // the RuntimeError of line 196

  const MinPoints: nat := 3

  /** The runs that have both a position and a peak (line 193). */
  function QualifyingRuns(runToPos: map<int, real>, peakByRun: map<int, Peak>): (s: set<int>)
    ensures forall r :: r in s <==> r in runToPos && r in peakByRun
  {
    runToPos.Keys * peakByRun.Keys
  }

  /** `extract_center` up to the fit (lines 192-201): the qualifying runs in ascending
      order, each contributing its position as x and its peak as y. */
  function ExtractCenter(runToPos: map<int, real>, peakByRun: map<int, Peak>): (r: Result<Graph, CenterError>)
    ensures r.Failure? <==> |QualifyingRuns(runToPos, peakByRun)| < MinPoints
    ensures r.Failure? ==> r.error.got == |QualifyingRuns(runToPos, peakByRun)|
    ensures r.Success? ==>
              && |r.value.runs| >= MinPoints
              && (forall run :: run in r.value.runs <==> run in runToPos && run in peakByRun)
              && StrictlyIncreasing(r.value.runs)
              && |r.value.x| == |r.value.runs| && |r.value.y| == |r.value.runs|
              && |r.value.ex| == |r.value.runs| && |r.value.ey| == |r.value.runs|
              && (forall i :: 0 <= i < |r.value.ex| ==> r.value.ex[i] == 0.0)
  {
    var runs := SortedElements(QualifyingRuns(runToPos, peakByRun));
    if |runs| < MinPoints then Failure(NotEnoughPoints(|runs|))
    else
      assert forall i :: 0 <= i < |runs| ==> runs[i] in runToPos && runs[i] in peakByRun;
      Success(BuildGraph(runs, runToPos, peakByRun))
  }

  /** The graph of the selected runs, in the order given. */
  function BuildGraph(runs: seq<int>, runToPos: map<int, real>, peakByRun: map<int, Peak>): (g: Graph)
    requires forall i :: 0 <= i < |runs| ==> runs[i] in runToPos && runs[i] in peakByRun
    ensures g.runs == runs
    ensures |g.x| == |runs| && |g.y| == |runs| && |g.ex| == |runs| && |g.ey| == |runs|
    ensures forall i :: 0 <= i < |runs| ==>
              g.x[i] == runToPos[runs[i]] && g.y[i] == peakByRun[runs[i]].value
              && g.ex[i] == 0.0 && g.ey[i] == peakByRun[runs[i]].err
  {
    Graph(runs, Positions(runs, runToPos),
          seq(|runs|, i requires 0 <= i < |runs| => peakByRun[runs[i]].value),
          seq(|runs|, i => 0.0),
          seq(|runs|, i requires 0 <= i < |runs| => peakByRun[runs[i]].err))
  }

  function Positions(runs: seq<int>, runToPos: map<int, real>): (xs: seq<real>)
    requires forall i :: 0 <= i < |runs| ==> runs[i] in runToPos
    ensures |xs| == |runs|
  {
    seq(|runs|, i requires 0 <= i < |runs| => runToPos[runs[i]])
  }

  /** Every qualifying run appears at exactly one point, which carries that run's position
      and peak. */
  lemma ExtractCenterPoints(runToPos: map<int, real>, peakByRun: map<int, Peak>, run: int)
    requires ExtractCenter(runToPos, peakByRun).Success?
    requires run in runToPos && run in peakByRun
    ensures var g := ExtractCenter(runToPos, peakByRun).value;
            exists i :: 0 <= i < |g.runs| && g.runs[i] == run
              && g.x[i] == runToPos[run] && g.y[i] == peakByRun[run].value && g.ey[i] == peakByRun[run].err
              && forall j :: 0 <= j < |g.runs| && j != i ==> g.runs[j] != run
  {
    var g := ExtractCenter(runToPos, peakByRun).value;
    var runs := SortedElements(QualifyingRuns(runToPos, peakByRun));
    assert forall k :: 0 <= k < |runs| ==> runs[k] in runToPos && runs[k] in peakByRun;
    assert g == BuildGraph(runs, runToPos, peakByRun);
    assert run in runs;
    var i :| 0 <= i < |runs| && runs[i] == run;
    forall j | 0 <= j < |runs| && j != i
      ensures runs[j] != run
    {
      if j < i {
        assert runs[j] < runs[i];
      } else {
        assert runs[i] < runs[j];
      }
    }
  }

  /** Adding entries for runs that lack a partner in the other table changes nothing. */
  lemma ExtractCenterIgnoresUnpaired(runToPos: map<int, real>, peakByRun: map<int, Peak>, run: int, pos: real)
    requires run !in peakByRun
    ensures ExtractCenter(runToPos[run := pos], peakByRun) == ExtractCenter(runToPos, peakByRun)
  {
    var m := runToPos[run := pos];
    var runs := SortedElements(QualifyingRuns(runToPos, peakByRun));
    QualifyingIgnoresUnpaired(runToPos, peakByRun, run, pos);
    ExtractCenterUnfold(m, peakByRun);
    ExtractCenterUnfold(runToPos, peakByRun);
    if |runs| >= MinPoints {
      PositionsIgnore(runs, runToPos, run, pos);
    }
  }

  /** `ExtractCenter` in terms of the sorted qualifying runs. */
  lemma ExtractCenterUnfold(runToPos: map<int, real>, peakByRun: map<int, Peak>)
    ensures var runs := SortedElements(QualifyingRuns(runToPos, peakByRun));
            && (forall i :: 0 <= i < |runs| ==> runs[i] in runToPos && runs[i] in peakByRun)
            && ExtractCenter(runToPos, peakByRun) ==
                 if |runs| < MinPoints then Failure(NotEnoughPoints(|runs|))
                 else Success(BuildGraph(runs, runToPos, peakByRun))
  {
    var runs := SortedElements(QualifyingRuns(runToPos, peakByRun));
    assert forall i :: 0 <= i < |runs| ==> runs[i] in QualifyingRuns(runToPos, peakByRun);
  }

  lemma QualifyingIgnoresUnpaired(runToPos: map<int, real>, peakByRun: map<int, Peak>, run: int, pos: real)
    requires run !in peakByRun
    ensures QualifyingRuns(runToPos[run := pos], peakByRun) == QualifyingRuns(runToPos, peakByRun)
  {
    var a := QualifyingRuns(runToPos[run := pos], peakByRun);
    var b := QualifyingRuns(runToPos, peakByRun);
    assert forall r :: r in a <==> r in b;
  }

  /** Positions of runs that do not include `run` do not see its entry. */
  lemma PositionsIgnore(runs: seq<int>, runToPos: map<int, real>, run: int, pos: real)
    requires forall i :: 0 <= i < |runs| ==> runs[i] in runToPos && runs[i] != run
    ensures Positions(runs, runToPos[run := pos]) == Positions(runs, runToPos)
  {
    var a := Positions(runs, runToPos[run := pos]);
    var b := Positions(runs, runToPos);
    assert forall i :: 0 <= i < |runs| ==> a[i] == b[i];
  }

  // ---------------------------------------------------------------------------
  // Run file names (line 128)
  // ---------------------------------------------------------------------------

  const DataDir: string := "beam"   // line 7

  /** Python's `f"{n:03d}"`: at least three characters, zero-padded after the sign. */
  function Format03(n: int): (s: string)
    ensures |s| >= 3
    ensures 0 <= n < 1000 ==> |s| == 3 && AllDigits(s)
    ensures ParseInt(s) == Some(n)
  {
    if n >= 0 then
      ParseIntOfPadded(n, 3);
      ZeroPadWidth(n, 3);
      ZeroPad(n, 3)
    else
      var d := ZeroPad(-n, 2);
      ParseIntOfPadded(-n, 2);
      var s := "-" + d;
      assert s[1..] == d && s[0] == '-' && !IsDigit(s[0]);
      assert ParseInt(s) == Some(0 - DigitsValue(d) as int);
      s
  }

  /** `ParseInt` reads a zero-padded number back. */
  lemma ParseIntOfPadded(n: nat, width: nat)
    ensures ParseInt(ZeroPad(n, width)) == Some(n)
    ensures |ZeroPad(n, width)| >= width
  {
  }

  /** Padding to `width` gives exactly `width` characters precisely for the numbers that
      fit in `width` digits. */
  lemma ZeroPadWidth(n: nat, width: nat)
    ensures 0 < width ==> (|ZeroPad(n, width)| == width <==> n < Pow10(width))
  {
    if 0 < width {
      DigitsLength(n, width);
    }
  }

  /** A number has at most `k` decimal digits exactly when it is below 10^k. */
  lemma {:induction false} DigitsLength(n: nat, k: nat)
    requires 0 < k
    ensures |NatToDigits(n)| <= k <==> n < Pow10(k)
  {
    if n >= 10 {
      assert NatToDigits(n) == NatToDigits(n / 10) + [DigitChar(n % 10)];
      if k == 1 {
        assert Pow10(1) == 10;
      } else {
        DigitsLength(n / 10, k - 1);
        assert n / 10 < Pow10(k - 1) <==> n < 10 * Pow10(k - 1);
      }
    } else {
      assert Pow10(k) == 10 * Pow10(k - 1);
    }
  }

  /** The data file of a run: `beam/RunNNN.root`. */
  function RunPath(run: int): (p: string)
    ensures StartsWith(p, DataDir + "/Run") && EndsWith(p, ".root")
  {
    DataDir + "/Run" + Format03(run) + ".root"
  }

  /** Recover the run number from a run file path. */
  function ParseRunPath(p: string): (r: Option<int>)
  {
    var prefix := DataDir + "/Run";
    if |p| >= |prefix| + 5 && StartsWith(p, prefix) && EndsWith(p, ".root") then
      ParseInt(p[|prefix|..|p| - 5])
    else None
  }

  /** Distinct runs read distinct files: the path names its run. */
  lemma RunPathRoundTrip(run: int)
    ensures ParseRunPath(RunPath(run)) == Some(run)
  {
    var prefix := DataDir + "/Run";
    var f := Format03(run);
    var p := RunPath(run);
    assert p == prefix + f + ".root";
    assert p[|prefix|..|p| - 5] == f;
  }
}
