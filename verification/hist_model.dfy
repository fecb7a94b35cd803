/** The histogram helpers the LED analysis scripts share: reading a binned histogram from
    CSV rows, building variable bin edges from bin centres, bin errors, locating a bin,
    reading the LED voltage from a file name, zero-guarded ratios, and choosing and
    ordering the input files and the result points. Numbers are exact reals. */
module HistModel {
  import opened Wrappers
  import opened Text
  import opened Sorting

  // ---------------------------------------------------------------------------
  // CSV rows
  // ---------------------------------------------------------------------------

  /** A Python float as far as the scripts look at it: a value, or NaN. */
  datatype Num = Finite(value: real) | NaN

  /** One CSV cell: `float(cell)` either gives a number or raises ValueError. */
  datatype Cell = Number(num: Num) | NotNumber

  type Row = seq<Cell>

  /** The bin centres and counts read from a histogram CSV. */
  datatype Columns = Columns(x: seq<real>, y: seq<real>)

  const NoColumns := Columns([], [])

  /** A row that contributes a point: at least two cells, the first two numeric and not NaN. */
  predicate Accepted(row: Row) {
    && |row| >= 2
    && row[0].Number? && row[0].num.Finite?
    && row[1].Number? && row[1].num.Finite?
  }

  function Concat(a: Columns, b: Columns): Columns {
    Columns(a.x + b.x, a.y + b.y)
  }

  /** The data rows after the header, filtered (lines 29-40 of the LED scripts' reader). */
  function ReadRows(rows: seq<Row>): (c: Columns)
    ensures |c.x| == |c.y| <= |rows|
    ensures forall k :: 0 <= k < |c.x| ==>
              exists i :: 0 <= i < |rows| && Accepted(rows[i])
                && c.x[k] == rows[i][0].num.value && c.y[k] == rows[i][1].num.value
  {
    if |rows| == 0 then NoColumns
    else
      var n := |rows| - 1;
      var c := ReadRows(rows[..n]);
      if Accepted(rows[n]) then
        var r := Columns(c.x + [rows[n][0].num.value], c.y + [rows[n][1].num.value]);
        assert forall k :: 0 <= k < |c.x| ==> r.x[k] == c.x[k] && r.y[k] == c.y[k];
        r
      else c
  }

  /** `read_binned_hist_csv`: the first row is discarded whatever it holds, then the
      accepted rows give one (centre, count) pair each, in file order. */
  function ReadBinnedHistCsv(rows: seq<Row>): (c: Columns)
    ensures |c.x| == |c.y|
    ensures |rows| > 0 ==> c == ReadRows(rows[1..])
    ensures |rows| <= 1 ==> c == NoColumns
  {
    if |rows| == 0 then NoColumns else ReadRows(rows[1..])
  }

  /** Row filtering is row by row: reading two blocks of rows reads each in turn. */
  lemma {:induction false} ReadRowsAppend(a: seq<Row>, b: seq<Row>)
    ensures ReadRows(a + b) == Concat(ReadRows(a), ReadRows(b))
    decreases |b|
  {
    if |b| == 0 {
      assert a + b == a;
    } else {
      var n := |b| - 1;
      assert (a + b)[..|a + b| - 1] == a + b[..n];
      ReadRowsAppend(a, b[..n]);
    }
  }

  /** A single row contributes exactly its own pair when accepted and nothing otherwise. */
  lemma ReadRowsSingle(row: Row)
    ensures ReadRows([row]) == if Accepted(row) then Columns([row[0].num.value], [row[1].num.value]) else NoColumns
  {
    assert [row][..0] == [];
  }

  /** The reader's loop as the scripts write it, proved to compute `ReadBinnedHistCsv`. */
  method ReadBinnedHistCsvLoop(rows: seq<Row>) returns (x: seq<real>, y: seq<real>)
    ensures Columns(x, y) == ReadBinnedHistCsv(rows)
  {
    x, y := [], [];
    if |rows| == 0 {
      return;
    }
    var body := rows[1..];
    var i := 0;
    while i < |body|
      invariant 0 <= i <= |body|
      invariant Columns(x, y) == ReadRows(body[..i])
    {
      var row := body[i];
      assert body[..i + 1][..i] == body[..i];
      if |row| == 0 || |row| < 2 {
        i := i + 1;
        continue;
      }
      if row[0].NotNumber? || row[1].NotNumber? {
        i := i + 1;
        continue;
      }
      if row[0].num.NaN? || row[1].num.NaN? {
        i := i + 1;
        continue;
      }
      x := x + [row[0].num.value];
      y := y + [row[1].num.value];
      i := i + 1;
    }
    assert body[..i] == body;
  }

  // ---------------------------------------------------------------------------
  // Bin edges from bin centres
  // ---------------------------------------------------------------------------

  /** The edges of `make_th1_from_centers_counts`: none for fewer than two centres;
      otherwise every inner edge lies halfway between its two centres and the outer
      edges put the first and last centre in the middle of their bins. */
  function BinEdges(x: seq<real>): (e: Option<seq<real>>)
    ensures e.None? <==> |x| < 2
    ensures e.Some? ==> |e.value| == |x| + 1
    ensures e.Some? ==> forall i :: 1 <= i < |x| ==> e.value[i] - x[i - 1] == x[i] - e.value[i]
    ensures e.Some? ==> x[0] - e.value[0] == e.value[1] - x[0]
    ensures e.Some? ==> x[|x| - 1] - e.value[|x| - 1] == e.value[|x|] - x[|x| - 1]
  {
    if |x| < 2 then None
    else
      var n := |x|;
      Some(seq(n + 1, i requires 0 <= i <= n =>
        if i == 0 then x[0] - 0.5 * (x[1] - x[0])
        else if i == n then x[n - 1] + 0.5 * (x[n - 1] - x[n - 2])
        else 0.5 * (x[i - 1] + x[i])))
  }

  predicate StrictlyIncreasingReals(xs: seq<real>) {
    forall i, j :: 0 <= i < j < |xs| ==> xs[i] < xs[j]
  }

  /** For strictly increasing centres the edges increase strictly and every centre lies
      strictly inside its own bin. */
  lemma EdgesBracketCentres(x: seq<real>)
    requires |x| >= 2 && StrictlyIncreasingReals(x)
    ensures var e := BinEdges(x).value;
            && StrictlyIncreasingReals(e)
            && forall i :: 0 <= i < |x| ==> e[i] < x[i] < e[i + 1]
  {
    var e := BinEdges(x).value;
    forall i | 0 <= i < |x|
      ensures e[i] < x[i] < e[i + 1]
    {
      CentreInBin(x, i);
    }
    forall i, j | 0 <= i < j < |e|
      ensures e[i] < e[j]
    {
      CentreInBin(x, i);
      CentreInBin(x, j - 1);
      if i < j - 1 {
        assert x[i] < x[j - 1];
      }
    }
  }

  lemma CentreInBin(x: seq<real>, i: nat)
    requires |x| >= 2 && StrictlyIncreasingReals(x) && i < |x|
    ensures BinEdges(x).value[i] < x[i] < BinEdges(x).value[i + 1]
  {
    var e := BinEdges(x).value;
    var n := |x|;
    if i == 0 {
      assert x[0] < x[1];
      assert e[0] == x[0] - 0.5 * (x[1] - x[0]);
    } else {
      assert x[i - 1] < x[i];
      assert e[i] == 0.5 * (x[i - 1] + x[i]);
    }
    if i + 1 < n {
      assert x[i] < x[i + 1];
      assert e[i + 1] == 0.5 * (x[i] + x[i + 1]);
    } else {
      assert x[n - 2] < x[n - 1];
      assert e[n] == x[n - 1] + 0.5 * (x[n - 1] - x[n - 2]);
    }
  }

  /** `GetMaximumBin` over bins 1..n: the first bin holding the largest content. */
  function MaximumBin(y: seq<real>): (b: nat)
    requires |y| >= 1
    ensures 1 <= b <= |y|
    ensures forall k :: 0 <= k < |y| ==> y[k] <= y[b - 1]
    ensures forall k :: 0 <= k < b - 1 ==> y[k] < y[b - 1]
  {
    if |y| == 1 then 1
    else
      var b := MaximumBin(y[..|y| - 1]);
      if y[|y| - 1] > y[b - 1] then |y| else b
  }

  /** Centre of bin `b` (1-based) as the histogram reports it: the middle of its edges. */
  function BinCentre(e: seq<real>, b: nat): real
    requires 1 <= b < |e|
  {
    0.5 * (e[b - 1] + e[b])
  }

  /** Evenly spaced centres are given back exactly as the centres of the bins built
      around them. */
  lemma UniformCentresRecovered(x: seq<real>, d: real)
    requires |x| >= 2
    requires forall i :: 1 <= i < |x| ==> x[i] - x[i - 1] == d
    ensures forall b :: 1 <= b <= |x| ==> BinCentre(BinEdges(x).value, b) == x[b - 1]
  {
    var e := BinEdges(x).value;
    var n := |x|;
    forall b | 1 <= b <= n
      ensures BinCentre(e, b) == x[b - 1]
    {
      if b == 1 {
        assert x[1] - x[0] == d;
      } else if b == n {
        assert x[n - 1] - x[n - 2] == d;
      } else {
        assert x[b - 1] - x[b - 2] == d && x[b] - x[b - 1] == d;
      }
    }
  }

  /** The edge loop as the scripts write it: a list of zeros, the first edge, the inner
      edges in a loop, then the last edge. */
  method BinEdgesLoop(x: seq<real>) returns (edges: seq<real>)
    requires |x| >= 2
    ensures Some(edges) == BinEdges(x)
  {
    var n := |x|;
    edges := seq(n + 1, _ => 0.0);
    edges := edges[0 := x[0] - 0.5 * (x[1] - x[0])];
    var i := 1;
    while i < n
      invariant 1 <= i <= n && |edges| == n + 1
      invariant edges[0] == x[0] - 0.5 * (x[1] - x[0])
      invariant forall k :: 1 <= k < i ==> edges[k] == 0.5 * (x[k - 1] + x[k])
    {
      edges := edges[i := 0.5 * (x[i - 1] + x[i])];
      i := i + 1;
    }
    edges := edges[n := x[n - 1] + 0.5 * (x[n - 1] - x[n - 2])];
    var spec := BinEdges(x).value;
    assert |spec| == |edges|;
    assert forall k :: 0 <= k <= n ==> edges[k] == spec[k];
    assert edges == spec;
  }

  // ---------------------------------------------------------------------------
  // Bin errors and bin lookup
  // ---------------------------------------------------------------------------

  /** `sqrt` is the real square root on non-negative arguments. */
  ghost predicate IsSqrt(sqrt: real -> real) {
    && sqrt(0.0) == 0.0
    && forall v :: v >= 0.0 ==> sqrt(v) >= 0.0 && sqrt(v) * sqrt(v) == v
  }

  /** Squared relative error of a ratio `a / b`, from the errors of `a` and `b`:
      `(ea / a) ** 2 + (eb / b) ** 2`. */
  function RelErrorSquared(a: real, ea: real, b: real, eb: real): (q: real)
    requires a != 0.0 && b != 0.0
    ensures q >= 0.0
  {
    (ea / a) * (ea / a) + (eb / b) * (eb / b)
  }

  /** `r` is the ratio `num / den`. */
  predicate IsRatio(r: real, num: real, den: real) {
    r * den == num
  }

  /** `err` is a non-negative error whose square is `ratio ** 2 * q`, for a squared relative
      error `q`. */
  predicate IsPropagatedError(err: real, ratio: real, q: real) {
    err >= 0.0 && err * err == ratio * ratio * q
  }

  /** `abs(ratio) * sqrt(q)`: the error of a ratio whose squared relative error is `q`. */
  function RatioError(ratio: real, q: real, sqrt: real -> real): (err: real)
    requires IsSqrt(sqrt) && q >= 0.0
    ensures err >= 0.0
    ensures err * err == ratio * ratio * q
    ensures q == 0.0 ==> err == 0.0
  {
    var a := if ratio < 0.0 then -ratio else ratio;
    var s := sqrt(q);
    assert (a * s) * (a * s) == (a * a) * (s * s);
    a * s
  }

  /** Error set on a bin with count `c`: the square root of the count, or 0 for a negative
      count. */
  function BinError(c: real, sqrt: real -> real): (err: real)
    requires IsSqrt(sqrt)
    ensures err >= 0.0
    ensures c < 0.0 ==> err == 0.0
    ensures c >= 0.0 ==> err * err == c
  {
    if c >= 0.0 then sqrt(c) else 0.0
  }

  /** Errors of all bins, bin `i + 1` carrying the error of count `y[i]`. */
  function BinErrors(y: seq<real>, sqrt: real -> real): (errs: seq<real>)
    requires IsSqrt(sqrt)
    ensures |errs| == |y|
    ensures forall i :: 0 <= i < |y| ==> errs[i] >= 0.0 && (y[i] < 0.0 ==> errs[i] == 0.0)
                                         && (y[i] >= 0.0 ==> errs[i] * errs[i] == y[i])
  {
    seq(|y|, i requires 0 <= i < |y| => BinError(y[i], sqrt))
  }

  /** The histogram `make_th1_from_centers_counts` fills: its edges, the bin contents in
      bin order and the bin errors. */
  datatype Hist = Hist(edges: seq<real>, contents: seq<real>, errors: seq<real>)

  /** The histogram of the read columns; none for fewer than two centres. */
  function MakeHist(c: Columns, sqrt: real -> real): (h: Option<Hist>)
    requires IsSqrt(sqrt) && |c.x| == |c.y|
    ensures h.None? <==> |c.x| < 2
    ensures h.Some? ==> |h.value.edges| == |c.x| + 1 && |h.value.contents| == |h.value.errors| == |c.x|
    ensures h.Some? ==> h.value.edges == BinEdges(c.x).value && h.value.contents == c.y
                        && h.value.errors == BinErrors(c.y, sqrt)
  {
    match BinEdges(c.x)
    case None => None
    case Some(edges) => Some(Hist(edges, c.y, BinErrors(c.y, sqrt)))
  }

  /** The fill loop as the scripts write it: bin `i` gets count `y[i - 1]` and its error. */
  method FillHist(x: seq<real>, y: seq<real>, sqrt: real -> real) returns (h: Hist)
    requires IsSqrt(sqrt) && |x| == |y| && |x| >= 2
    ensures Some(h) == MakeHist(Columns(x, y), sqrt)
    ensures forall i :: 0 <= i < |y| ==>
              h.contents[i] == y[i] && h.errors[i] >= 0.0 && (y[i] >= 0.0 ==> h.errors[i] * h.errors[i] == y[i])
  {
    var edges := BinEdgesLoop(x);
    var contents, errors := FillBins(y, sqrt);
    h := Hist(edges, contents, errors);
    FilledHist(x, y, sqrt, h);
  }

  /** The histogram the fill loop leaves is the one `MakeHist` gives for the columns. */
  lemma FilledHist(x: seq<real>, y: seq<real>, sqrt: real -> real, h: Hist)
    requires IsSqrt(sqrt) && |x| == |y| && |x| >= 2
    requires h == Hist(BinEdges(x).value, y, BinErrors(y, sqrt))
    ensures Some(h) == MakeHist(Columns(x, y), sqrt)
    ensures forall i :: 0 <= i < |y| ==>
              h.contents[i] == y[i] && h.errors[i] >= 0.0 && (y[i] >= 0.0 ==> h.errors[i] * h.errors[i] == y[i])
  {
  }

  /** The fill loop proper: bin `i + 1` gets count `y[i]` and the error of that count. */
  method FillBins(y: seq<real>, sqrt: real -> real) returns (contents: seq<real>, errors: seq<real>)
    requires IsSqrt(sqrt)
    ensures contents == y && errors == BinErrors(y, sqrt)
  {
    contents := [];
    errors := [];
    var i := 0;
    while i < |y|
      invariant 0 <= i <= |y| && |contents| == i && |errors| == i
      invariant forall k :: 0 <= k < i ==> contents[k] == y[k] && errors[k] == BinError(y[k], sqrt)
    {
      var err := if y[i] >= 0.0 then sqrt(y[i]) else 0.0;
      contents := contents + [y[i]];
      errors := errors + [err];
      i := i + 1;
    }
    assert contents == y;
    var expected := BinErrors(y, sqrt);
    assert forall k :: 0 <= k < |y| ==> errors[k] == expected[k];
  }

  /** Number of edges not above `v`. */
  function EdgesAtOrBelow(e: seq<real>, v: real): (k: nat)
    ensures k <= |e|
  {
    if |e| == 0 then 0 else (if e[|e| - 1] <= v then 1 else 0) + EdgesAtOrBelow(e[..|e| - 1], v)
  }

  /** `FindBin` on a histogram with increasing edges: 0 is the underflow bin, `n + 1`
      the overflow bin, and bin `b` in between covers `[e[b - 1], e[b])`. */
  function FindBin(e: seq<real>, v: real): (b: nat)
    ensures b <= |e|
    ensures |e| >= 2 && StrictlyIncreasingReals(e) ==>
              && (b == 0 <==> v < e[0])
              && (b == |e| <==> e[|e| - 1] <= v)
              && (1 <= b < |e| ==> e[b - 1] <= v < e[b])
  {
    CountsWhenIncreasing(e, v);
    EdgesAtOrBelow(e, v)
  }

  lemma CountsWhenIncreasing(e: seq<real>, v: real)
    ensures StrictlyIncreasingReals(e) ==>
              forall i :: 0 <= i < |e| ==> (e[i] <= v <==> i < EdgesAtOrBelow(e, v))
  {
    if StrictlyIncreasingReals(e) {
      EdgesAtOrBelowCounts(e, v);
    }
  }

  /** A larger value never lands in a lower bin, whatever the edges. */
  lemma {:induction false} FindBinMonotone(e: seq<real>, v: real, w: real)
    requires v <= w
    ensures FindBin(e, v) <= FindBin(e, w)
  {
    if |e| > 0 {
      FindBinMonotone(e[..|e| - 1], v, w);
    }
  }

  lemma {:induction false} EdgesAtOrBelowCounts(e: seq<real>, v: real)
    requires StrictlyIncreasingReals(e)
    ensures forall i :: 0 <= i < |e| ==> (e[i] <= v <==> i < EdgesAtOrBelow(e, v))
  {
    if |e| > 0 {
      var f := e[..|e| - 1];
      assert StrictlyIncreasingReals(f);
      EdgesAtOrBelowCounts(f, v);
      forall i | 0 <= i < |e|
        ensures e[i] <= v <==> i < EdgesAtOrBelow(e, v)
      {
        if i < |f| {
          assert e[i] == f[i];
          if e[|e| - 1] <= v {
            assert e[i] < e[|e| - 1];
          }
        }
        if e[|e| - 1] <= v && |f| > 0 {
          assert e[|f| - 1] < e[|e| - 1];
        }
      }
    }
  }

  // ---------------------------------------------------------------------------
  // Voltage from a file name
  // ---------------------------------------------------------------------------

  /** End of the run of digits that starts at `i`. */
  function DigitRunEnd(s: string, i: nat): (j: nat)
    requires i <= |s|
    ensures i <= j <= |s|
    ensures forall k :: i <= k < j ==> IsDigit(s[k])
    ensures j == |s| || !IsDigit(s[j])
    decreases |s| - i
  {
    if i < |s| && IsDigit(s[i]) then DigitRunEnd(s, i + 1) else i
  }

  /** The two digit groups of a match of `(\d+)V(\d+)`. */
  datatype VoltageMatch = VoltageMatch(whole: string, frac: string)

  /** Digit, 'V', digit at position `i`: where a match of `(\d+)V(\d+)` ends its first group. */
  predicate PatternAt(s: string, i: int) {
    0 <= i && i + 2 < |s| && IsDigit(s[i]) && s[i + 1] == 'V' && IsDigit(s[i + 2])
  }

  /** The match of `(\d+)V(\d+)` starting at `i`, if one does: both groups are greedy. */
  function MatchAt(s: string, i: nat): (m: Option<VoltageMatch>)
    requires i <= |s|
    ensures m.Some? ==> |m.value.whole| >= 1 && |m.value.frac| >= 1
    ensures m.Some? ==> AllDigits(m.value.whole) && AllDigits(m.value.frac)
  {
    var j := DigitRunEnd(s, i);
    if j > i && j + 1 < |s| && s[j] == 'V' && IsDigit(s[j + 1]) then
      var k := DigitRunEnd(s, j + 1);
      Some(VoltageMatch(s[i..j], s[j + 1..k]))
    else None
  }

  /** `re.search` from position `i`: the leftmost match. */
  function SearchFrom(s: string, i: nat): (m: Option<VoltageMatch>)
    requires i <= |s|
    ensures m.Some? ==> |m.value.whole| >= 1 && |m.value.frac| >= 1
    ensures m.Some? ==> AllDigits(m.value.whole) && AllDigits(m.value.frac)
    decreases |s| - i
  {
    if MatchAt(s, i).Some? then MatchAt(s, i)
    else if i == |s| then None
    else SearchFrom(s, i + 1)
  }

  /** `float(f"{whole}.{frac}")`, exactly. */
  function VoltageValue(m: VoltageMatch): (v: real)
    requires AllDigits(m.whole) && AllDigits(m.frac)
    ensures v >= 0.0
  {
    DigitsValue(m.whole) as real + DigitsValue(m.frac) as real / Pow10(|m.frac|) as real
  }

  /** `parse_voltage`: the voltage of the leftmost digits-'V'-digits group, or None (whose
      labels are "unknown") when the name has none. */
  function ParseVoltage(name: string): (v: Option<real>)
    ensures v.Some? <==> exists i :: PatternAt(name, i)
    ensures v.Some? ==> v.value >= 0.0
    ensures v.Some? ==> exists k :: LeftmostMatch(name, 0, k) && v.value == VoltageValue(MatchAt(name, k).value)
  {
    SearchFromFinds(name, 0);
    var m := SearchFrom(name, 0);
    if m.Some? then
      SearchFromLeftmost(name, 0);
      Some(VoltageValue(m.value))
    else None
  }

  /** A match starts at `k` and none starts between `i` and `k`. */
  predicate LeftmostMatch(s: string, i: nat, k: nat) {
    i <= k <= |s| && MatchAt(s, k).Some? && forall j :: i <= j < k ==> MatchAt(s, j).None?
  }

  /** Where a successful search finds its match. */
  function MatchIndex(s: string, i: nat): nat
    requires i <= |s| && SearchFrom(s, i).Some?
    decreases |s| - i
  {
    if MatchAt(s, i).Some? then i else MatchIndex(s, i + 1)
  }

  /** The search gives the match that starts leftmost at or after `i`. */
  lemma {:induction false} SearchFromLeftmost(s: string, i: nat)
    requires i <= |s| && SearchFrom(s, i).Some?
    ensures LeftmostMatch(s, i, MatchIndex(s, i)) && MatchAt(s, MatchIndex(s, i)) == SearchFrom(s, i)
    decreases |s| - i
  {
    if MatchAt(s, i).None? {
      SearchFromLeftmost(s, i + 1);
    }
  }

  /** No match at or after `i` when the search finds none. */
  lemma {:induction false} SearchFromNone(s: string, i: nat)
    requires i <= |s| && SearchFrom(s, i).None?
    ensures forall j :: i <= j <= |s| ==> MatchAt(s, j).None?
    decreases |s| - i
  {
    if i < |s| {
      SearchFromNone(s, i + 1);
    }
  }

  /** The label the scripts print for a voltage; only the unknown case is modelled. */
  function UnknownLabel(): string {
    "unknown"
  }

  lemma {:induction false} SearchFromFinds(s: string, i: nat)
    requires i <= |s|
    ensures SearchFrom(s, i).Some? <==> exists k :: i <= k && PatternAt(s, k)
    decreases |s| - i
  {
    var j := DigitRunEnd(s, i);
    PatternAtMatches(s, i);
    if MatchAt(s, i).Some? {
      assert PatternAt(s, j - 1);
    } else {
      if i < |s| {
        SearchFromFinds(s, i + 1);
        assert (exists k :: i <= k && PatternAt(s, k)) ==> exists k :: i + 1 <= k && PatternAt(s, k);
      } else {
        assert forall k :: i <= k ==> !PatternAt(s, k);
      }
    }
  }

  lemma PatternAtMatches(s: string, i: nat)
    requires i <= |s|
    ensures PatternAt(s, i) ==> MatchAt(s, i).Some?
  {
    if PatternAt(s, i) {
      DigitRunTo(s, i, i + 1);
    }
  }

  predicate NoDigits(s: string) {
    forall k :: 0 <= k < |s| ==> !IsDigit(s[k])
  }

  /** A name made of digit-free text, `whole` 'V' `frac`, and text that does not continue
      the digits gives the voltage whole.frac. */
  lemma ParseVoltageOfName(prefix: string, whole: string, frac: string, suffix: string)
    requires NoDigits(prefix)
    requires |whole| >= 1 && AllDigits(whole) && |frac| >= 1 && AllDigits(frac)
    requires |suffix| == 0 || !IsDigit(suffix[0])
    ensures ParseVoltage(prefix + whole + "V" + frac + suffix) == Some(VoltageValue(VoltageMatch(whole, frac)))
  {
    var s := prefix + whole + "V" + frac + suffix;
    var p := |prefix|;
    var w := p + |whole|;
    assert s[w] == 'V';
    assert forall k :: p <= k < w ==> s[k] == whole[k - p];
    assert forall k :: w + 1 <= k < w + 1 + |frac| ==> s[k] == frac[k - w - 1];
    assert DigitRunEnd(s, p) == w by { DigitRunTo(s, p, w); }
    assert DigitRunEnd(s, w + 1) == w + 1 + |frac| by {
      if |suffix| > 0 {
        assert s[w + 1 + |frac|] == suffix[0];
      }
      DigitRunTo(s, w + 1, w + 1 + |frac|);
    }
    assert s[p..w] == whole;
    assert s[w + 1..w + 1 + |frac|] == frac;
    assert MatchAt(s, p) == Some(VoltageMatch(whole, frac));
    SkipPrefix(s, p, 0);
  }

  lemma {:induction false} DigitRunTo(s: string, i: nat, j: nat)
    requires i <= j <= |s|
    requires forall k :: i <= k < j ==> IsDigit(s[k])
    requires j == |s| || !IsDigit(s[j])
    ensures DigitRunEnd(s, i) == j
    decreases j - i
  {
    if i < j {
      DigitRunTo(s, i + 1, j);
    }
  }

  /** The search walks past digit-free text to the first match. */
  lemma {:induction false} SkipPrefix(s: string, p: nat, i: nat)
    requires i <= p <= |s|
    requires forall k :: i <= k < p ==> !IsDigit(s[k])
    ensures SearchFrom(s, i) == SearchFrom(s, p)
    decreases p - i
  {
    if i < p {
      assert DigitRunEnd(s, i) == i;
      SkipPrefix(s, p, i + 1);
    }
  }

  /** The example from the scripts' documentation: 'hist_area_1V33.csv' reads as 1.33 V. */
  lemma ParseVoltageExample()
    ensures ParseVoltage("hist_area_1V33.csv") == Some(1.33)
  {
    var prefix := "hist_area_";
    assert "hist_area_1V33.csv" == prefix + "1" + "V" + "33" + ".csv";
    assert NoDigits(prefix) by {
      forall k | 0 <= k < |prefix|
        ensures !IsDigit(prefix[k])
      {
        assert k == 0 || k == 1 || k == 2 || k == 3 || k == 4 || k == 5 || k == 6 || k == 7 || k == 8 || k == 9;
      }
    }
    ParseVoltageOfName(prefix, "1", "33", ".csv");
    ExampleValue();
  }

  lemma ExampleValue()
    ensures VoltageValue(VoltageMatch("1", "33")) == 1.33
  {
    assert DigitsValue("1") == 1 by {
      assert "1"[..0] == "";
    }
    assert DigitsValue("33") == 33 by {
      assert "33"[..1] == "3";
      assert "3"[..0] == "";
    }
    assert Pow10(2) == 100;
  }

  // ---------------------------------------------------------------------------
  // Zero-guarded ratio
  // ---------------------------------------------------------------------------

  /** `num / den if den != 0 else 0.0`. */
  function RatioOrZero(num: real, den: real): (r: real)
    ensures den == 0.0 ==> r == 0.0
    ensures den != 0.0 ==> r * den == num
  {
    if den != 0.0 then num / den else 0.0
  }

  // ---------------------------------------------------------------------------
  // Input files and result points
  // ---------------------------------------------------------------------------

  /** A file of a data directory: its name and what the script reads from it. */
  datatype Entry<D> = Entry(name: string, data: D)

  /** Python's ordering of file names. */
  function ByName<D>(a: Entry<D>, b: Entry<D>): bool {
    StringLe(a.name, b.name)
  }

  lemma ByNameIsTotalPreorder<D(!new)>()
    ensures TotalPreorder(ByName<D>)
  {
    forall a: Entry<D>, b: Entry<D>
      ensures ByName(a, b) || ByName(b, a)
    {
      StringLeTotal(a.name, b.name);
    }
    forall a: Entry<D>, b: Entry<D>, c: Entry<D> | ByName(a, b) && ByName(b, c)
      ensures ByName(a, c)
    {
      StringLeTransitive(a.name, b.name, c.name);
    }
  }

  predicate Matches(name: string, prefix: string) {
    StartsWith(name, prefix) && EndsWith(name, ".csv")
  }

  function Filter<D(==,!new)>(entries: seq<Entry<D>>, prefix: string): (r: seq<Entry<D>>)
    ensures forall e :: e in r <==> e in entries && Matches(e.name, prefix)
  {
    if |entries| == 0 then []
    else
      var rest := Filter(entries[1..], prefix);
      assert forall e :: e in entries <==> e == entries[0] || e in entries[1..];
      if Matches(entries[0].name, prefix) then [entries[0]] + rest else rest
  }

  /** `sorted(f for f in listdir(dir) if f.startswith(prefix) and f.endswith(".csv"))`:
      the matching files, each once, in name order. An empty prefix keeps every `.csv`. */
  function SelectFiles<D(==,!new)>(entries: seq<Entry<D>>, prefix: string): (r: seq<Entry<D>>)
    ensures forall e :: e in r <==> e in entries && Matches(e.name, prefix)
    ensures multiset(r) == multiset(Filter(entries, prefix))
    ensures SortedBy(r, ByName<D>)
  {
    ByNameIsTotalPreorder<D>();
    var r := SortBy(Filter(entries, prefix), ByName<D>);
    assert forall e :: e in r <==> e in multiset(r);
    r
  }

  /** One point of a resolution-versus-voltage curve: voltage, resolution in percent and
      their errors. */
  datatype Point = Point(v: real, res: real, vErr: real, resErr: real)

  function ByVoltage(a: Point, b: Point): bool {
    a.v <= b.v
  }

  lemma ByVoltageIsTotalPreorder()
    ensures TotalPreorder(ByVoltage)
  {
  }

  /** The four lists `map(list, zip(*items))` returns. */
  datatype Curve = Curve(voltages: seq<real>, resolutions: seq<real>, vErrors: seq<real>, resErrors: seq<real>)

  function Unzip(points: seq<Point>): (c: Curve)
    ensures |c.voltages| == |points| && |c.resolutions| == |points|
    ensures |c.vErrors| == |points| && |c.resErrors| == |points|
    ensures forall i :: 0 <= i < |points| ==>
              points[i] == Point(c.voltages[i], c.resolutions[i], c.vErrors[i], c.resErrors[i])
  {
    Curve(seq(|points|, i requires 0 <= i < |points| => points[i].v),
          seq(|points|, i requires 0 <= i < |points| => points[i].res),
          seq(|points|, i requires 0 <= i < |points| => points[i].vErr),
          seq(|points|, i requires 0 <= i < |points| => points[i].resErr))
  }

  /** Sort result points by voltage (a stable sort: equal voltages keep file order). */
  function SortByVoltage(points: seq<Point>): (r: seq<Point>)
    ensures multiset(r) == multiset(points)
    ensures |r| == |points|
    ensures forall i, j :: 0 <= i < j < |r| ==> r[i].v <= r[j].v
    ensures forall p :: Tied(r, ByVoltage, p) == Tied(points, ByVoltage, p)
  {
    ByVoltageIsTotalPreorder();
    assert forall p :: Tied(SortBy(points, ByVoltage), ByVoltage, p) == Tied(points, ByVoltage, p) by {
      forall p ensures Tied(SortBy(points, ByVoltage), ByVoltage, p) == Tied(points, ByVoltage, p) {
        SortByStable(points, ByVoltage, p);
      }
    }
    SortBy(points, ByVoltage)
  }

  /** The points back from the four lists. */
  predicate WellFormedCurve(c: Curve) {
    |c.resolutions| == |c.voltages| && |c.vErrors| == |c.voltages| && |c.resErrors| == |c.voltages|
  }

  function Zip(c: Curve): (points: seq<Point>)
    requires WellFormedCurve(c)
    ensures |points| == |c.voltages|
  {
    seq(|c.voltages|, i requires 0 <= i < |c.voltages| =>
      Point(c.voltages[i], c.resolutions[i], c.vErrors[i], c.resErrors[i]))
  }

  /** Unzipping and zipping again gives the points back. */
  lemma ZipUnzip(points: seq<Point>)
    ensures WellFormedCurve(Unzip(points)) && Zip(Unzip(points)) == points
  {
  }

  // ---------------------------------------------------------------------------
  // The per-file loop shared by the scripts
  // ---------------------------------------------------------------------------

  /** Run `f` on each file in order, keeping the results of the files it does not skip. */
  function Process<D(==,!new), S(==,!new)>(files: seq<Entry<D>>, f: Entry<D> --> Option<S>): (r: seq<S>)
    requires forall e :: e in files ==> f.requires(e)
    ensures |r| <= |files|
    ensures forall s :: s in r ==> exists e :: e in files && f(e) == Some(s)
    ensures forall e :: e in files && f(e).Some? ==> f(e).value in r
  {
    if |files| == 0 then []
    else
      var rest := Process(files[1..], f);
      assert forall e :: e in files <==> e == files[0] || e in files[1..];
      match f(files[0])
      case Some(s) => [s] + rest
      case None => rest
  }

  /** The result `f` contributes for one file: its value, or nothing when it skips the file. */
  function Kept<D, S>(f: Entry<D> --> Option<S>, e: Entry<D>): seq<S>
    requires f.requires(e)
  {
    if f(e).Some? then [f(e).value] else []
  }

  lemma ProcessCons<D(!new), S(!new)>(files: seq<Entry<D>>, f: Entry<D> --> Option<S>)
    requires |files| > 0 && forall e :: e in files ==> f.requires(e)
    ensures Process(files, f) == Kept(f, files[0]) + Process(files[1..], f)
  {
  }

  lemma TailApplies<D, S>(a: seq<Entry<D>>, b: seq<Entry<D>>, f: Entry<D> --> Option<S>)
    requires |a| > 0 && forall e :: e in a + b ==> f.requires(e)
    ensures forall e :: e in a[1..] + b ==> f.requires(e)
  {
    assert forall e :: e in a[1..] + b ==> e in a + b;
  }

  /** Processing two runs of files one after the other gives the results of each in turn. */
  lemma {:induction false} ProcessConcat<D(!new), S(!new)>(a: seq<Entry<D>>, b: seq<Entry<D>>, f: Entry<D> --> Option<S>)
    requires forall e :: e in a + b ==> f.requires(e)
    ensures Process(a + b, f) == Process(a, f) + Process(b, f)
  {
    if |a| > 0 {
      var ab := a + b;
      assert ab[1..] == a[1..] + b;
      assert ab[0] == a[0];
      TailApplies(a, b, f);
      calc {
        Process(ab, f);
        == { ProcessCons(ab, f); }
        Kept(f, a[0]) + Process(a[1..] + b, f);
        == { ProcessConcat(a[1..], b, f); }
        Kept(f, a[0]) + (Process(a[1..], f) + Process(b, f));
        == (Kept(f, a[0]) + Process(a[1..], f)) + Process(b, f);
        == { ProcessCons(a, f); }
        Process(a, f) + Process(b, f);
      }
    } else {
      assert a + b == b;
    }
  }

  /** The loop form: one more file appends its result, if any. */
  lemma ProcessSnoc<D(!new), S(!new)>(files: seq<Entry<D>>, f: Entry<D> --> Option<S>, i: nat)
    requires i < |files| && forall e :: e in files ==> f.requires(e)
    ensures Process(files[..i + 1], f) ==
              Process(files[..i], f) + (if f(files[i]).Some? then [f(files[i]).value] else [])
  {
    assert files[..i + 1] == files[..i] + [files[i]];
    ProcessConcat(files[..i], [files[i]], f);
    assert [files[i]][1..] == [];
  }

  /** The results of a loop over files do not depend on the order of the files, only on
      how often each file occurs. */
  lemma {:induction false} ProcessPermutation<D(!new), S(!new)>(a: seq<Entry<D>>, b: seq<Entry<D>>, f: Entry<D> --> Option<S>)
    requires multiset(a) == multiset(b)
    requires forall e :: e in a ==> f.requires(e)
    ensures forall e :: e in b ==> f.requires(e)
    ensures multiset(Process(a, f)) == multiset(Process(b, f))
    decreases |a|
  {
    assert forall e :: e in b ==> e in multiset(b);
    if |a| > 0 {
      var x := a[0];
      assert x in multiset(b);
      var j :| 0 <= j < |b| && b[j] == x;
      var b1, b2 := b[..j], b[j + 1..];
      var rest := b1 + b2;
      RemoveOne(a, b, j);
      assert forall e :: e in a[1..] ==> e in a;
      ProcessPermutation(a[1..], rest, f);
      ProcessAround(b, j, f);
      ProcessWithout(b, j, f);
      ProcessCons(a, f);
      var p1, k, p2 := Process(b1, f), Kept(f, x), Process(b2, f);
      assert Process(a, f) == k + Process(a[1..], f);
      assert Process(rest, f) == p1 + p2;
      assert Process(b, f) == p1 + k + p2;
      calc {
        multiset(Process(a, f));
        multiset(k) + multiset(Process(a[1..], f));
        multiset(k) + multiset(p1 + p2);
        multiset(p1) + multiset(k) + multiset(p2);
        multiset(p1 + k + p2);
      }
    }
  }

  lemma RemoveOne<T>(a: seq<T>, b: seq<T>, j: nat)
    requires multiset(a) == multiset(b) && |a| > 0 && j < |b| && b[j] == a[0]
    ensures multiset(a[1..]) == multiset(b[..j] + b[j + 1..])
  {
    assert a == [a[0]] + a[1..];
    assert b == b[..j] + [b[j]] + b[j + 1..];
    var rest := b[..j] + b[j + 1..];
    assert multiset(a) == multiset(a[1..]) + multiset{a[0]};
    assert multiset(b) == multiset(rest) + multiset{a[0]} by {
      assert multiset(b) == multiset(b[..j]) + multiset{b[j]} + multiset(b[j + 1..]);
      assert multiset(rest) == multiset(b[..j]) + multiset(b[j + 1..]);
    }
    assert multiset(a[1..]) == multiset(a) - multiset{a[0]};
    assert multiset(rest) == multiset(b) - multiset{a[0]};
  }

  /** Processing around one file: its result sits between those of the files before and
      after it. */
  lemma ProcessAround<D(!new), S(!new)>(b: seq<Entry<D>>, j: nat, f: Entry<D> --> Option<S>)
    requires j < |b| && forall e :: e in b ==> f.requires(e)
    ensures Process(b, f) == Process(b[..j], f) + Kept(f, b[j]) + Process(b[j + 1..], f)
  {
    var c := b[j..];
    assert b == b[..j] + c;
    ProcessSplit(b[..j], c, f);
    assert c[1..] == b[j + 1..];
    ProcessCons(c, f);
  }

  /** Without that file, only the results of the files before and after it remain. */
  lemma ProcessWithout<D(!new), S(!new)>(b: seq<Entry<D>>, j: nat, f: Entry<D> --> Option<S>)
    requires j < |b| && forall e :: e in b ==> f.requires(e)
    ensures forall e :: e in b[..j] + b[j + 1..] ==> f.requires(e)
    ensures Process(b[..j] + b[j + 1..], f) == Process(b[..j], f) + Process(b[j + 1..], f)
  {
    assert forall e :: e in b[..j] + b[j + 1..] ==> e in b;
    ProcessConcat(b[..j], b[j + 1..], f);
  }

  lemma ProcessSplit<D(!new), S(!new)>(b1: seq<Entry<D>>, c: seq<Entry<D>>, f: Entry<D> --> Option<S>)
    requires forall e :: e in b1 + c ==> f.requires(e)
    ensures forall e :: e in b1 ==> f.requires(e)
    ensures forall e :: e in c ==> f.requires(e)
    ensures Process(b1 + c, f) == Process(b1, f) + Process(c, f)
  {
    assert forall e :: e in b1 ==> e in b1 + c;
    assert forall e :: e in c ==> e in b1 + c;
    ProcessConcat(b1, c, f);
  }

  datatype CurveError =
    | NoFiles          // "No {prefix}*.csv files found"
    | NoValidPoints    // "No valid points found"

  /** The points of the matching files, sorted by voltage. */
  function ValidPoints<D(==,!new)>(entries: seq<Entry<D>>, prefix: string, point: Entry<D> --> Option<Point>)
    : (r: seq<Point>)
    requires forall e :: e in entries ==> point.requires(e)
    ensures forall p :: p in r ==> exists e :: e in entries && Matches(e.name, prefix) && point(e) == Some(p)
    ensures forall e :: e in entries && Matches(e.name, prefix) && point(e).Some? ==> point(e).value in r
    ensures forall i, j :: 0 <= i < j < |r| ==> r[i].v <= r[j].v
    ensures multiset(r) == multiset(Process(Filter(entries, prefix), point))
    ensures forall p :: Tied(r, ByVoltage, p) == Tied(Process(SelectFiles(entries, prefix), point), ByVoltage, p)
  {
    var sorted := SortByVoltage(Process(SelectFiles(entries, prefix), point));
    PointsFromFiles(entries, prefix, point, sorted);
    sorted
  }

  /** Any permutation of the points the loop gives for the matching files in name order
      holds exactly the points of the matching files, and is a permutation of the points
      the loop gives for them in listing order. */
  lemma PointsFromFiles<D(!new)>(entries: seq<Entry<D>>, prefix: string, point: Entry<D> --> Option<Point>,
                                    r: seq<Point>)
    requires forall e :: e in entries ==> point.requires(e)
    requires multiset(r) == multiset(Process(SelectFiles(entries, prefix), point))
    ensures forall p :: p in r ==> exists e :: e in entries && Matches(e.name, prefix) && point(e) == Some(p)
    ensures forall e :: e in entries && Matches(e.name, prefix) && point(e).Some? ==> point(e).value in r
    ensures multiset(r) == multiset(Process(Filter(entries, prefix), point))
  {
    var files := SelectFiles(entries, prefix);
    SameElements(r, Process(files, point));
    assert forall e :: e in Filter(entries, prefix) ==> e in entries;
    ProcessPermutation(Filter(entries, prefix), files, point);
  }

  lemma SameElements<T>(a: seq<T>, b: seq<T>)
    requires multiset(a) == multiset(b)
    ensures forall x :: x in a <==> x in b
  {
    assert forall x :: x in a <==> x in multiset(a);
    assert forall x :: x in b <==> x in multiset(b);
  }

  /** A resolution-versus-voltage scan: the matching files in name order, one point per
      file `point` does not skip, sorted by voltage. */
  function ResolutionCurve<D(==,!new)>(entries: seq<Entry<D>>, prefix: string, point: Entry<D> --> Option<Point>)
    : (r: Result<Curve, CurveError>)
    requires forall e :: e in entries ==> point.requires(e)
    ensures r == Failure(NoFiles) <==> forall e :: e in entries ==> !Matches(e.name, prefix)
    ensures r == Failure(NoValidPoints) <==>
              && (exists e :: e in entries && Matches(e.name, prefix))
              && (forall e :: e in entries && Matches(e.name, prefix) ==> point(e).None?)
    ensures r.Success? ==> WellFormedCurve(r.value) && |r.value.voltages| >= 1
    ensures r.Success? ==> forall i, j :: 0 <= i < j < |r.value.voltages| ==> r.value.voltages[i] <= r.value.voltages[j]
    ensures r.Success? ==> forall p :: p in Zip(r.value) ==>
              exists e :: e in entries && Matches(e.name, prefix) && point(e) == Some(p)
    ensures r.Success? ==> forall e :: e in entries && Matches(e.name, prefix) && point(e).Some? ==>
              point(e).value in Zip(r.value)
    ensures r.Success? ==> multiset(Zip(r.value)) == multiset(Process(Filter(entries, prefix), point))
    ensures r.Success? ==> forall p ::
              Tied(Zip(r.value), ByVoltage, p) == Tied(Process(SelectFiles(entries, prefix), point), ByVoltage, p)
  {
    var files := SelectFiles(entries, prefix);
    if |files| == 0 then
      Failure(NoFiles)
    else
      assert files[0] in files;
      var points := ValidPoints(entries, prefix, point);
      if |points| == 0 then
        Failure(NoValidPoints)
      else
        assert points[0] in points;
        ZipUnzip(points);
        Success(Unzip(points))
  }
}
