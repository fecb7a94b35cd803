/** The phase scan of the internal-injection DAQ script (009_IntInjection_2V5.py): the time
    at which each injection sample is placed, the decoding of that time back to a clock
    phase when the CSV is written, and the per-channel accumulation of samples. */
module PhaseScan {
  import opened Wrappers
  import Sorting

  const PhaseOffset: int := 7                 // line 298
  const SampleInterval: real := 25.0          // line 296, ns between samples
  const PhaseInterval: real := 25.0 / 16.0    // line 297, ns per phase step
  const ChannelsPerAsic: nat := 76            // lines 430-436
  const TotalAsic: nat := 2                   // line 200
  const ScanStartChannel: nat := 0            // line 287
  const ScanChannelsPerAsic: nat := 18        // line 288

  /** The phase settings scanned (line 283). */
  const PhaseSettings: seq<int> := [0, 1, 2, 3, 5, 8, 9, 10, 11, 12, 13, 14, 15]

  // ---------------------------------------------------------------------------
  // Sample time and its decoding (lines 475-482, 539)
  // ---------------------------------------------------------------------------

  /** `phase_offseted` (lines 475-477). */
  function OffsetPhase(phase: int): (o: int)
    ensures 0 <= phase < 16 ==> 0 <= o < 16 && o == (phase - PhaseOffset) % 16
  {
    var d := phase - PhaseOffset;
    if d < 0 then d + 16 else d
  }

  /** Time of sample `k` taken at `phase` (line 482). */
  function SampleTime(phase: int, k: nat): (t: real)
    ensures 0 <= phase < 16 ==> k as real * SampleInterval <= t < (k + 1) as real * SampleInterval
  {
    OffsetPhase(phase) as real * PhaseInterval + k as real * SampleInterval
  }

  /** Python `x % y` on floats with `y > 0` (floor modulus). */
  function FloatMod(x: real, y: real): (m: real)
    requires y > 0.0
    ensures 0.0 <= m < y
  {
    var q := x / y;
    var f := q.Floor as real;
    var m := x - y * f;
    FloorModBounds(x, y, q, f, m);
    m
  }

  lemma FloorModBounds(x: real, y: real, q: real, f: real, m: real)
    requires y > 0.0 && q == x / y && f <= q < f + 1.0 && m == x - y * f
    ensures 0.0 <= m < y
  {
    var d := f + 1.0 - q;
    var e := q - f;
    assert x == y * q;
    assert m == y * e;
    assert y - m == y * d;
    PositiveProduct(y, d);
    NonNegativeProduct(y, e);
  }

  lemma PositiveProduct(a: real, b: real)
    requires a > 0.0 && b > 0.0
    ensures a * b > 0.0
  {
  }

  lemma NonNegativeProduct(a: real, b: real)
    requires a > 0.0 && b >= 0.0
    ensures a * b >= 0.0
  {
  }

  /** Python `int(x)` on a float: truncation toward zero. */
  function Trunc(x: real): (n: int)
    ensures x >= 0.0 ==> n as real <= x < n as real + 1.0
  {
    if x >= 0.0 then x.Floor else -((-x).Floor)
  }

  /** The phase written to the CSV for a sample time (line 539). */
  function DecodePhase(t: real): (p: int)
    ensures 0 <= p < 16
  {
    Trunc(FloatMod(t, SampleInterval) / PhaseInterval + PhaseOffset as real) % 16
  }

  /** The sample index of a time: the whole number of sample intervals it contains. */
  function DecodeSampleIndex(t: real): int
  {
    (t / SampleInterval).Floor
  }

  lemma FloorOfShifted(k: int, f: real)
    requires 0.0 <= f < 1.0
    ensures (k as real + f).Floor == k
  {
  }

  /** Decoding recovers the phase and the sample index from which a time was built. */
  lemma {:induction false} DecodeSampleTime(phase: int, k: nat)
    requires 0 <= phase < 16
    ensures DecodePhase(SampleTime(phase, k)) == phase
    ensures DecodeSampleIndex(SampleTime(phase, k)) == k
  {
    var o := OffsetPhase(phase);
    var t := SampleTime(phase, k);
    assert t / SampleInterval == k as real + o as real / 16.0;
    FloorOfShifted(k, o as real / 16.0);
    var m := FloatMod(t, SampleInterval);
    assert m == o as real * PhaseInterval;
    assert m / PhaseInterval + PhaseOffset as real == (o + PhaseOffset) as real;
    assert Trunc((o + PhaseOffset) as real) == o + PhaseOffset;
  }

  /** Different (phase, sample) pairs are placed at different times. */
  lemma SampleTimeInjective(p1: int, k1: nat, p2: int, k2: nat)
    requires 0 <= p1 < 16 && 0 <= p2 < 16
    requires SampleTime(p1, k1) == SampleTime(p2, k2)
    ensures p1 == p2 && k1 == k2
  {
    DecodeSampleTime(p1, k1);
    DecodeSampleTime(p2, k2);
  }

  // ---------------------------------------------------------------------------
  // Channel selection (lines 461-467)
  // ---------------------------------------------------------------------------

  /** Global channel number of channel `c` of ASIC `asic` (line 463). */
  function ChannelIndex(asic: nat, c: nat): (ch: nat)
    ensures c < ChannelsPerAsic ==> ch / ChannelsPerAsic == asic && ch % ChannelsPerAsic == c
    ensures asic < TotalAsic && c < ChannelsPerAsic ==> ch < ChannelsPerAsic * TotalAsic
  {
    asic * ChannelsPerAsic + c
  }

  /** Channels the loop visits before filtering, in loop order. */
  function Candidates(): (cs: seq<nat>)
    ensures |cs| == TotalAsic * ScanChannelsPerAsic
    ensures forall i :: 0 <= i < |cs| ==>
              cs[i] == ChannelIndex(i / ScanChannelsPerAsic, ScanStartChannel + i % ScanChannelsPerAsic)
  {
    seq(TotalAsic * ScanChannelsPerAsic,
        i requires 0 <= i => ChannelIndex(i / ScanChannelsPerAsic, ScanStartChannel + i % ScanChannelsPerAsic))
  }

  predicate Skipped(ch: int, notUsed: seq<int>, dead: seq<int>) {
    ch in notUsed || ch in dead
  }

  /** The loop order: channels ascend, and each is one of the first 18 of its ASIC. */
  lemma CandidatesOrdered()
    ensures Sorting.StrictlyIncreasing(Candidates())
    ensures forall i :: 0 <= i < |Candidates()| ==>
              Candidates()[i] % ChannelsPerAsic < ScanStartChannel + ScanChannelsPerAsic
  {
    var cs := Candidates();
    forall i, j | 0 <= i < j < |cs|
      ensures cs[i] < cs[j]
    {
      var a, b := i / ScanChannelsPerAsic, j / ScanChannelsPerAsic;
      assert cs[i] == a * ChannelsPerAsic + i % ScanChannelsPerAsic;
      assert cs[j] == b * ChannelsPerAsic + j % ScanChannelsPerAsic;
      if a == b {
        assert i % ScanChannelsPerAsic < j % ScanChannelsPerAsic;
      } else {
        assert a + 1 <= b;
      }
    }
  }

  /** `cs` without the skipped channels, in the same order. */
  function Without(cs: seq<nat>, notUsed: seq<int>, dead: seq<int>): (r: seq<nat>)
    ensures forall ch :: ch in r <==> ch in cs && !Skipped(ch, notUsed, dead)
    ensures |r| <= |cs|
  {
    if |cs| == 0 then []
    else
      var rest := Without(cs[1..], notUsed, dead);
      assert forall ch :: ch in cs <==> ch == cs[0] || ch in cs[1..];
      if Skipped(cs[0], notUsed, dead) then rest else [cs[0]] + rest
  }

  /** Dropping channels keeps the rest in order. */
  lemma {:induction false} WithoutOrdered(cs: seq<nat>, notUsed: seq<int>, dead: seq<int>)
    requires Sorting.StrictlyIncreasing(cs)
    ensures Sorting.StrictlyIncreasing(Without(cs, notUsed, dead))
  {
    if |cs| > 0 {
      var tail := cs[1..];
      assert Sorting.StrictlyIncreasing(tail) by {
        assert forall k :: 0 <= k < |tail| ==> tail[k] == cs[k + 1];
      }
      WithoutOrdered(tail, notUsed, dead);
      var rest := Without(tail, notUsed, dead);
      if !Skipped(cs[0], notUsed, dead) {
        var r := [cs[0]] + rest;
        forall i, j | 0 <= i < j < |r|
          ensures r[i] < r[j]
        {
          if i == 0 {
            assert r[j] == rest[j - 1] && rest[j - 1] in rest;
            HeadBelowTail(cs, rest[j - 1]);
          } else {
            assert r[i] == rest[i - 1] && r[j] == rest[j - 1];
          }
        }
      }
    }
  }

  lemma HeadBelowTail(cs: seq<nat>, x: nat)
    requires Sorting.StrictlyIncreasing(cs) && |cs| > 0 && x in cs[1..]
    ensures cs[0] < x
  {
    var m :| 0 <= m < |cs[1..]| && cs[1..][m] == x;
    assert cs[m + 1] == x;
  }

  /** The channels whose samples are recorded: the first 18 channels of each ASIC, minus
      the not-used and dead channels, each once and in ascending order. */
  function ScannedChannels(notUsed: seq<int>, dead: seq<int>): (r: seq<nat>)
    ensures forall ch :: ch in r ==> ch < ChannelsPerAsic * TotalAsic && !Skipped(ch, notUsed, dead)
    ensures forall ch :: ch in r ==> ch % ChannelsPerAsic < ScanStartChannel + ScanChannelsPerAsic
    ensures forall asic: nat, c: nat ::
              (asic < TotalAsic && ScanStartChannel <= c < ScanStartChannel + ScanChannelsPerAsic
               && !Skipped(ChannelIndex(asic, c), notUsed, dead)) ==> ChannelIndex(asic, c) in r
    ensures Sorting.StrictlyIncreasing(r)
  {
    var cs := Candidates();
    forall asic: nat, c: nat | asic < TotalAsic && ScanStartChannel <= c < ScanStartChannel + ScanChannelsPerAsic
      ensures ChannelIndex(asic, c) in cs
    {
      var i := asic * ScanChannelsPerAsic + (c - ScanStartChannel);
      assert i / ScanChannelsPerAsic == asic && i % ScanChannelsPerAsic == c - ScanStartChannel;
      assert cs[i] == ChannelIndex(asic, c);
    }
    CandidatesOrdered();
    WithoutOrdered(cs, notUsed, dead);
    assert forall ch :: ch in cs ==> ch % ChannelsPerAsic < ScanStartChannel + ScanChannelsPerAsic;
    Without(cs, notUsed, dead)
  }

  // ---------------------------------------------------------------------------
  // Per-channel sample accumulation (lines 468-488)
  // ---------------------------------------------------------------------------

  /** The per-channel results of one injection: ADC, TOT and ToA means and their errors,
      indexed by sample. */
  datatype Samples = Samples(adc: seq<real>, adcErr: seq<real>, tot: seq<real>, totErr: seq<real>,
                             toa: seq<real>, toaErr: seq<real>)

  /** The seven accumulated series of one channel (lines 430-436). */
  datatype Series = Series(times: seq<real>, adcs: seq<real>, adcErrs: seq<real>, tots: seq<real>,
                           totErrs: seq<real>, toas: seq<real>, toaErrs: seq<real>)

  datatype ScanError = IndexOutOfRange   // Python IndexError

  const EmptySeries: Series := Series([], [], [], [], [], [], [])

  /** All seven series have the same length, so entry `i` of each belongs to one sample. */
  predicate LockStep(s: Series) {
    && |s.adcs| == |s.times| && |s.adcErrs| == |s.times| && |s.tots| == |s.times|
    && |s.totErrs| == |s.times| && |s.toas| == |s.times| && |s.toaErrs| == |s.times|
  }

  /** Every channel's series are in lock-step. */
  predicate AllLockStep(state: seq<Series>) {
    forall ch :: 0 <= ch < |state| ==> LockStep(state[ch])
  }

  lemma UpdateKeepsLockStep(state: seq<Series>, ch: nat, s: Series)
    requires ch < |state| && (LockStep(state[ch]) ==> LockStep(s))
    ensures AllLockStep(state) ==> AllLockStep(state[ch := s])
  {
  }

  /** Length of the shortest of the lists indexed alongside the ADC list. */
  function OtherLength(smp: Samples): (m: nat)
    ensures m <= |smp.adcErr| && m <= |smp.tot| && m <= |smp.totErr| && m <= |smp.toa| && m <= |smp.toaErr|
  {
    var m1 := if |smp.adcErr| < |smp.tot| then |smp.adcErr| else |smp.tot|;
    var m2 := if |smp.totErr| < |smp.toa| then |smp.totErr| else |smp.toa|;
    var m3 := if m1 < m2 then m1 else m2;
    if m3 < |smp.toaErr| then m3 else |smp.toaErr|
  }

  /** Indices of the samples with a non-zero ADC value, ascending. */
  function NonZero(adc: seq<real>): (idx: seq<nat>)
    ensures forall k :: 0 <= k < |idx| ==> idx[k] < |adc| && adc[idx[k]] != 0.0
    ensures forall i :: 0 <= i < |adc| && adc[i] != 0.0 ==> i in idx
    ensures forall k, l :: 0 <= k < l < |idx| ==> idx[k] < idx[l]
  {
    if |adc| == 0 then []
    else
      var n := |adc| - 1;
      var front := NonZero(adc[..n]);
      if adc[n] != 0.0 then front + [n] else front
  }

  /** Every index in `idx` is below `bound`. */
  predicate AllBelow(idx: seq<nat>, bound: nat) {
    forall k :: 0 <= k < |idx| ==> idx[k] < bound
  }

  /** Append sample `i` to each of the seven series (lines 482-488). */
  function Push(s: Series, phase: int, smp: Samples, i: nat): (r: Series)
    requires i < |smp.adc| && i < OtherLength(smp)
  {
    Series(s.times + [SampleTime(phase, i)], s.adcs + [smp.adc[i]],
           s.adcErrs + [smp.adcErr[i]], s.tots + [smp.tot[i]], s.totErrs + [smp.totErr[i]],
           s.toas + [smp.toa[i]], s.toaErrs + [smp.toaErr[i]])
  }

  /** The entries of `xs` at the indices `idx`, in that order. */
  function Pick(xs: seq<real>, idx: seq<nat>): (r: seq<real>)
    requires AllBelow(idx, |xs|)
    ensures |r| == |idx|
    ensures forall k :: 0 <= k < |idx| ==> r[k] == xs[idx[k]]
    decreases |idx|
  {
    if |idx| == 0 then []
    else
      var n := |idx| - 1;
      assert forall k :: 0 <= k < n ==> idx[..n][k] == idx[k];
      Pick(xs, idx[..n]) + [xs[idx[n]]]
  }

  /** The times of the samples at the indices `idx`, taken at `phase`. */
  function Times(phase: int, idx: seq<nat>): (r: seq<real>)
    ensures |r| == |idx|
    ensures forall k :: 0 <= k < |idx| ==> r[k] == SampleTime(phase, idx[k])
    decreases |idx|
  {
    if |idx| == 0 then []
    else
      var n := |idx| - 1;
      assert forall k :: 0 <= k < n ==> idx[..n][k] == idx[k];
      Times(phase, idx[..n]) + [SampleTime(phase, idx[n])]
  }

  /** Append the samples at the given indices, in order, to a channel's series: each of
      the seven series keeps its old entries and gains the matching entries of those
      samples. */
  function Extend(s: Series, phase: int, smp: Samples, idx: seq<nat>): (r: Series)
    requires AllBelow(idx, |smp.adc|) && AllBelow(idx, OtherLength(smp))
    ensures r == Series(s.times + Times(phase, idx), s.adcs + Pick(smp.adc, idx),
                        s.adcErrs + Pick(smp.adcErr, idx), s.tots + Pick(smp.tot, idx),
                        s.totErrs + Pick(smp.totErr, idx), s.toas + Pick(smp.toa, idx),
                        s.toaErrs + Pick(smp.toaErr, idx))
    decreases |idx|
  {
    if |idx| == 0 then s
    else
      var n := |idx| - 1;
      assert forall k :: 0 <= k < n ==> idx[..n][k] == idx[k];
      var i := idx[n];
      var front := Extend(s, phase, smp, idx[..n]);
      SnocAppend(s.times, Times(phase, idx[..n]), SampleTime(phase, i));
      SnocAppend(s.adcs, Pick(smp.adc, idx[..n]), smp.adc[i]);
      SnocAppend(s.adcErrs, Pick(smp.adcErr, idx[..n]), smp.adcErr[i]);
      SnocAppend(s.tots, Pick(smp.tot, idx[..n]), smp.tot[i]);
      SnocAppend(s.totErrs, Pick(smp.totErr, idx[..n]), smp.totErr[i]);
      SnocAppend(s.toas, Pick(smp.toa, idx[..n]), smp.toa[i]);
      SnocAppend(s.toaErrs, Pick(smp.toaErr, idx[..n]), smp.toaErr[i]);
      Push(front, phase, smp, i)
  }

  lemma SnocAppend(a: seq<real>, p: seq<real>, x: real)
    ensures a + (p + [x]) == (a + p) + [x]
  {
  }

  /** Extending keeps the seven series in lock-step. */
  lemma ExtendLockStep(s: Series, phase: int, smp: Samples, idx: seq<nat>)
    requires AllBelow(idx, |smp.adc|) && AllBelow(idx, OtherLength(smp))
    ensures LockStep(s) ==> LockStep(Extend(s, phase, smp, idx))
  {
  }

  /** Record one channel's samples taken at `phase`: samples with a zero ADC value are
      dropped, every other sample extends all seven series by one entry. A kept sample
      whose index is past the end of one of the other lists raises IndexError. */
  method AppendChannel(s: Series, phase: int, smp: Samples) returns (r: Result<Series, ScanError>)
    requires LockStep(s)
    ensures r.Success? <==> AllBelow(NonZero(smp.adc), OtherLength(smp))
    ensures r.Success? ==> LockStep(r.value) && r.value == Extend(s, phase, smp, NonZero(smp.adc))
  {
    var acc := s;
    var i := 0;
    while i < |smp.adc|
      invariant 0 <= i <= |smp.adc|
      invariant AllBelow(NonZero(smp.adc[..i]), OtherLength(smp))
      invariant acc == Extend(s, phase, smp, NonZero(smp.adc[..i]))
    {
      NonZeroStep(smp.adc, i);
      if smp.adc[i] != 0.0 {
        if i >= OtherLength(smp) {
          KeptPastEnd(smp.adc, i, OtherLength(smp));
          return Failure(IndexOutOfRange);
        }
        ExtendStep(s, phase, smp, NonZero(smp.adc[..i]), i);
        acc := Push(acc, phase, smp, i);
      }
      i := i + 1;
    }
    assert smp.adc[..i] == smp.adc;
    ExtendLockStep(s, phase, smp, NonZero(smp.adc));
    r := Success(acc);
  }

  lemma NonZeroStep(adc: seq<real>, i: nat)
    requires i < |adc|
    ensures NonZero(adc[..i + 1]) == if adc[i] != 0.0 then NonZero(adc[..i]) + [i] else NonZero(adc[..i])
  {
    assert adc[..i + 1][..i] == adc[..i];
  }

  lemma ExtendStep(s: Series, phase: int, smp: Samples, kept: seq<nat>, i: nat)
    requires AllBelow(kept, OtherLength(smp)) && AllBelow(kept, |smp.adc|)
    requires i < OtherLength(smp) && i < |smp.adc|
    ensures Extend(s, phase, smp, kept + [i]) == Push(Extend(s, phase, smp, kept), phase, smp, i)
  {
    assert (kept + [i])[..|kept|] == kept;
  }

  /** A kept sample past the end of the other lists makes the whole channel fail. */
  lemma KeptPastEnd(adc: seq<real>, i: nat, bound: nat)
    requires i < |adc| && adc[i] != 0.0 && i >= bound
    ensures !AllBelow(NonZero(adc), bound)
  {
    var idx := NonZero(adc);
    assert i in idx;
    var k :| 0 <= k < |idx| && idx[k] == i;
    assert !(idx[k] < bound);
  }

  lemma KeptIsNonZero(adc: seq<real>, k: nat)
    requires k < |NonZero(adc)|
    ensures NonZero(adc)[k] < |adc| && adc[NonZero(adc)[k]] != 0.0
  {
  }

  /** What an accepted channel contributes: one entry per non-zero ADC sample, in sample
      order, each with a non-zero ADC value. */
  lemma AppendedAdcs(s: Series, phase: int, smp: Samples)
    requires AllBelow(NonZero(smp.adc), OtherLength(smp))
    ensures
      var r := Extend(s, phase, smp, NonZero(smp.adc));
      && |r.adcs| - |s.adcs| == |NonZero(smp.adc)|
      && (forall j :: |s.adcs| <= j < |r.adcs| ==> r.adcs[j] != 0.0)
  {
    var idx := NonZero(smp.adc);
    NonZeroBelow(smp.adc);
    forall k | 0 <= k < |idx|
      ensures smp.adc[idx[k]] != 0.0
    {
      KeptIsNonZero(smp.adc, k);
    }
    ExtendNonZero(s, phase, smp, idx);
  }

  /** Appending samples whose ADC values are non-zero appends only non-zero ADC values. */
  lemma ExtendNonZero(s: Series, phase: int, smp: Samples, idx: seq<nat>)
    requires AllBelow(idx, |smp.adc|) && AllBelow(idx, OtherLength(smp))
    requires forall k :: 0 <= k < |idx| ==> smp.adc[idx[k]] != 0.0
    ensures forall j :: |s.adcs| <= j < |Extend(s, phase, smp, idx).adcs| ==> Extend(s, phase, smp, idx).adcs[j] != 0.0
  {
    var r := Extend(s, phase, smp, idx);
    var p := Pick(smp.adc, idx);
    forall j | |s.adcs| <= j < |r.adcs|
      ensures r.adcs[j] != 0.0
    {
      assert r.adcs[j] == p[j - |s.adcs|];
    }
  }

  /** Every time an accepted channel contributes decodes back to the phase it was taken at. */
  lemma AppendedTimes(s: Series, phase: int, smp: Samples)
    requires AllBelow(NonZero(smp.adc), OtherLength(smp))
    requires 0 <= phase < 16
    ensures
      var r := Extend(s, phase, smp, NonZero(smp.adc));
      forall j :: |s.times| <= j < |r.times| ==> DecodePhase(r.times[j]) == phase
  {
    ExtendTimesDecode(s, phase, smp, NonZero(smp.adc));
  }

  lemma ExtendTimesDecode(s: Series, phase: int, smp: Samples, idx: seq<nat>)
    requires AllBelow(idx, |smp.adc|) && AllBelow(idx, OtherLength(smp))
    requires 0 <= phase < 16
    ensures var r := Extend(s, phase, smp, idx);
            forall j :: |s.times| <= j < |r.times| ==> DecodePhase(r.times[j]) == phase
  {
    var t := Extend(s, phase, smp, idx).times;
    var added := Times(phase, idx);
    assert t == s.times + added;
    forall j | |s.times| <= j < |t|
      ensures DecodePhase(t[j]) == phase
    {
      var k := j - |s.times|;
      assert t[j] == added[k];
      DecodeSampleTime(phase, idx[k]);
    }
  }

  // ---------------------------------------------------------------------------
  // One phase step over all scanned channels (lines 438, 461-488)
  // ---------------------------------------------------------------------------

  /** The channel step as a value: the result `AppendChannel` computes. */
  function ChannelStep(s: Series, phase: int, smp: Samples): Result<Series, ScanError>
  {
    NonZeroBelow(smp.adc);
    if AllBelow(NonZero(smp.adc), OtherLength(smp)) then Success(Extend(s, phase, smp, NonZero(smp.adc)))
    else Failure(IndexOutOfRange)
  }

  lemma NonZeroBelow(adc: seq<real>)
    ensures AllBelow(NonZero(adc), |adc|)
  {
  }

  /** Channel `ch` makes the channel loop raise IndexError: it has no injection results,
      or one of its kept samples lies past the end of the other lists. */
  predicate ChannelFails(inj: seq<Samples>, ch: nat) {
    ch >= |inj| || !AllBelow(NonZero(inj[ch].adc), OtherLength(inj[ch]))
  }

  /** Every recorded time decodes to one of the phases in `phases`. */
  predicate DecodesInto(s: Series, phases: seq<int>) {
    forall j :: 0 <= j < |s.times| ==> DecodePhase(s.times[j]) in phases
  }

  /** Every channel's recorded times decode to one of the phases in `phases`. */
  predicate AllDecodeInto(state: seq<Series>, phases: seq<int>) {
    forall ch :: 0 <= ch < |state| ==> DecodesInto(state[ch], phases)
  }

  /** No channel of `chans` fails. */
  predicate NoChannelFails(inj: seq<Samples>, chans: seq<nat>) {
    forall k :: 0 <= k < |chans| ==> !ChannelFails(inj, chans[k])
  }

  lemma NoChannelFailsCons(inj: seq<Samples>, chans: seq<nat>)
    requires |chans| > 0
    ensures NoChannelFails(inj, chans) <==> !ChannelFails(inj, chans[0]) && NoChannelFails(inj, chans[1..])
  {
    assert forall k :: 0 < k < |chans| ==> chans[k] == chans[1..][k - 1];
  }

  /** Process the channels `chans` in order at `phase`; `inj[ch]` holds channel `ch`'s
      samples. A channel number past the end of the injection results raises IndexError. */
  function ScanChannels(state: seq<Series>, phase: int, inj: seq<Samples>, chans: seq<nat>)
    : (r: Result<seq<Series>, ScanError>)
    requires forall k :: 0 <= k < |chans| ==> chans[k] < |state|
    ensures r.Success? ==> |r.value| == |state|
    ensures r.Success? <==> NoChannelFails(inj, chans)
    decreases |chans|
  {
    if |chans| == 0 then Success(state)
    else
      var ch := chans[0];
      var tail := chans[1..];
      NoChannelFailsCons(inj, chans);
      if ch >= |inj| then Failure(IndexOutOfRange)
      else
        var smp := inj[ch];
        assert forall k :: 0 <= k < |tail| ==> tail[k] == chans[k + 1];
        match ChannelStep(state[ch], phase, smp)
        case Failure(e) => Failure(e)
        case Success(s) => ScanChannels(state[ch := s], phase, inj, tail)
  }

  /** The channel loop leaves every channel it does not visit untouched. */
  lemma {:induction false} ScanChannelsUntouched(state: seq<Series>, phase: int, inj: seq<Samples>, chans: seq<nat>)
    requires forall k :: 0 <= k < |chans| ==> chans[k] < |state|
    ensures var r := ScanChannels(state, phase, inj, chans);
            r.Success? ==> forall ch :: 0 <= ch < |state| && ch !in chans ==> r.value[ch] == state[ch]
    decreases |chans|
  {
    var r := ScanChannels(state, phase, inj, chans);
    if r.Success? && |chans| > 0 {
      var ch := chans[0];
      var smp := inj[ch];
      var s := ChannelStep(state[ch], phase, smp).value;
      var tail := chans[1..];
      assert forall k :: 0 <= k < |tail| ==> tail[k] == chans[k + 1];
      assert r == ScanChannels(state[ch := s], phase, inj, tail);
      ScanChannelsUntouched(state[ch := s], phase, inj, tail);
      forall c | 0 <= c < |state| && c !in chans
        ensures r.value[c] == state[c]
      {
        assert c != ch && c !in tail;
      }
    }
  }

  /** The channel loop keeps every channel's series in lock-step. */
  lemma {:induction false} ScanChannelsLockStep(state: seq<Series>, phase: int, inj: seq<Samples>, chans: seq<nat>)
    requires forall k :: 0 <= k < |chans| ==> chans[k] < |state|
    ensures var r := ScanChannels(state, phase, inj, chans);
            r.Success? && AllLockStep(state) ==> AllLockStep(r.value)
    decreases |chans|
  {
    var r := ScanChannels(state, phase, inj, chans);
    if r.Success? && AllLockStep(state) && |chans| > 0 {
      var ch := chans[0];
      var smp := inj[ch];
      var s := ChannelStep(state[ch], phase, smp).value;
      var tail := chans[1..];
      assert forall k :: 0 <= k < |tail| ==> tail[k] == chans[k + 1];
      assert r == ScanChannels(state[ch := s], phase, inj, tail);
      assert LockStep(state[ch]);
      ExtendLockStep(state[ch], phase, smp, NonZero(smp.adc));
      UpdateKeepsLockStep(state, ch, s);
      ScanChannelsLockStep(state[ch := s], phase, inj, tail);
    }
  }

  /** When each channel is listed once, the channel loop leaves every listed channel with
      the result of its own channel step. */
  lemma {:induction false} ScanChannelsVisited(state: seq<Series>, phase: int, inj: seq<Samples>, chans: seq<nat>)
    requires forall k :: 0 <= k < |chans| ==> chans[k] < |state|
    requires Sorting.StrictlyIncreasing(chans)
    ensures var r := ScanChannels(state, phase, inj, chans);
            r.Success? ==> forall ch :: ch in chans ==>
              ch < |inj| && ch < |state| && ChannelStep(state[ch], phase, inj[ch]) == Success(r.value[ch])
    decreases |chans|
  {
    var r := ScanChannels(state, phase, inj, chans);
    if r.Success? && |chans| > 0 {
      var ch := chans[0];
      var s := ChannelStep(state[ch], phase, inj[ch]).value;
      var tail := chans[1..];
      assert forall k :: 0 <= k < |tail| ==> tail[k] == chans[k + 1];
      var mid := state[ch := s];
      assert r == ScanChannels(mid, phase, inj, tail);
      ScanChannelsVisited(mid, phase, inj, tail);
      ScanChannelsUntouched(mid, phase, inj, tail);
      forall c | c in chans
        ensures c < |inj| && c < |state| && ChannelStep(state[c], phase, inj[c]) == Success(r.value[c])
      {
        if c != ch {
          assert c in tail;
          HeadBelowTail(chans, c);
          assert mid[c] == state[c];
        } else if ch in tail {
          HeadBelowTail(chans, ch);
        }
      }
    }
  }

  lemma NoChannelFailsMembers(inj: seq<Samples>, chans: seq<nat>)
    ensures NoChannelFails(inj, chans) <==> forall ch :: ch in chans ==> !ChannelFails(inj, ch)
  {
    assert forall ch :: ch in chans ==> exists k :: 0 <= k < |chans| && chans[k] == ch;
  }

  /** The channel loop of one phase step over the 152 per-channel series: it fails exactly
      when a scanned channel fails; otherwise every scanned channel gets the samples of its
      own injection results and every other channel is left as it was. */
  function ScanPhase(state: seq<Series>, phase: int, inj: seq<Samples>, notUsed: seq<int>, dead: seq<int>)
    : (r: Result<seq<Series>, ScanError>)
    requires |state| == ChannelsPerAsic * TotalAsic
    ensures r.Success? ==> |r.value| == |state|
    ensures r.Success? <==> forall ch :: ch in ScannedChannels(notUsed, dead) ==> !ChannelFails(inj, ch)
    ensures r.Success? ==> forall ch :: ch in ScannedChannels(notUsed, dead) ==>
              ch < |inj| && ChannelStep(state[ch], phase, inj[ch]) == Success(r.value[ch])
    ensures r.Success? ==> forall ch :: 0 <= ch < |state| && ch !in ScannedChannels(notUsed, dead) ==>
              r.value[ch] == state[ch]
    ensures r.Success? ==> forall ch :: 0 <= ch < |state| && Skipped(ch, notUsed, dead) ==> r.value[ch] == state[ch]
    ensures r.Success? ==> forall asic: nat, c: nat ::
              asic < TotalAsic && ScanStartChannel + ScanChannelsPerAsic <= c < ChannelsPerAsic
              ==> r.value[ChannelIndex(asic, c)] == state[ChannelIndex(asic, c)]
    ensures r.Success? && AllLockStep(state) ==> AllLockStep(r.value)
  {
    var chans := ScannedChannels(notUsed, dead);
    assert forall k :: 0 <= k < |chans| ==> chans[k] in chans;
    var r := ScanChannels(state, phase, inj, chans);
    NoChannelFailsMembers(inj, chans);
    ScanChannelsUntouched(state, phase, inj, chans);
    ScanChannelsVisited(state, phase, inj, chans);
    ScanChannelsLockStep(state, phase, inj, chans);
    r
  }

  /** The whole scan: one channel loop per phase setting, `inj[p]` holding the injection
      results taken at `phases[p]`. */
  function ScanAll(state: seq<Series>, phases: seq<int>, inj: seq<seq<Samples>>, notUsed: seq<int>, dead: seq<int>)
    : (r: Result<seq<Series>, ScanError>)
    requires |state| == ChannelsPerAsic * TotalAsic
    ensures r.Success? ==> |r.value| == |state|
    ensures r.Success? ==> |inj| >= |phases|
    ensures r.Success? && AllLockStep(state) ==> AllLockStep(r.value)
    decreases |phases|
  {
    if |phases| == 0 then Success(state)
    else if |inj| == 0 then Failure(IndexOutOfRange)
    else
      match ScanPhase(state, phases[0], inj[0], notUsed, dead)
      case Failure(e) => Failure(e)
      case Success(next) => ScanAll(next, phases[1..], inj[1..], notUsed, dead)
  }

  /** One channel through the whole scan on its own: its channel step at each phase in
      turn, `inj[p]` holding the injection results taken at `phases[p]`. */
  function ChannelHistory(s: Series, phases: seq<int>, inj: seq<seq<Samples>>, ch: nat): (r: Result<Series, ScanError>)
    decreases |phases|
  {
    if |phases| == 0 then Success(s)
    else if |inj| == 0 || ChannelFails(inj[0], ch) then Failure(IndexOutOfRange)
    else ChannelHistory(ChannelStep(s, phases[0], inj[0][ch]).value, phases[1..], inj[1..], ch)
  }

  /** The channels do not interact: after a successful scan every scanned channel holds
      what its own history gives, and every other channel is as it started. */
  lemma {:induction false} ScanAllPerChannel(state: seq<Series>, phases: seq<int>, inj: seq<seq<Samples>>,
                                             notUsed: seq<int>, dead: seq<int>)
    requires |state| == ChannelsPerAsic * TotalAsic
    ensures var r := ScanAll(state, phases, inj, notUsed, dead);
            r.Success? ==>
              && (forall ch :: ch in ScannedChannels(notUsed, dead) ==>
                    ChannelHistory(state[ch], phases, inj, ch) == Success(r.value[ch]))
              && (forall ch :: 0 <= ch < |state| && ch !in ScannedChannels(notUsed, dead) ==>
                    r.value[ch] == state[ch])
    decreases |phases|
  {
    var r := ScanAll(state, phases, inj, notUsed, dead);
    if r.Success? && |phases| > 0 {
      var step := ScanPhase(state, phases[0], inj[0], notUsed, dead);
      assert step.Success?;
      var next := step.value;
      assert r == ScanAll(next, phases[1..], inj[1..], notUsed, dead);
      ScanAllPerChannel(next, phases[1..], inj[1..], notUsed, dead);
      forall ch | ch in ScannedChannels(notUsed, dead)
        ensures ChannelHistory(state[ch], phases, inj, ch) == Success(r.value[ch])
      {
        assert ChannelStep(state[ch], phases[0], inj[0][ch]) == Success(next[ch]);
        assert ChannelHistory(state[ch], phases, inj, ch) == ChannelHistory(next[ch], phases[1..], inj[1..], ch);
      }
    }
  }

  /** The scan succeeds exactly when there are injection results for every phase setting
      and no scanned channel's history fails. */
  lemma {:induction false} ScanAllSucceeds(state: seq<Series>, phases: seq<int>, inj: seq<seq<Samples>>,
                                           notUsed: seq<int>, dead: seq<int>)
    requires |state| == ChannelsPerAsic * TotalAsic
    ensures ScanAll(state, phases, inj, notUsed, dead).Success? <==>
              |inj| >= |phases| &&
              forall ch :: ch in ScannedChannels(notUsed, dead) ==> ChannelHistory(state[ch], phases, inj, ch).Success?
    decreases |phases|
  {
    var chans := ScannedChannels(notUsed, dead);
    if |phases| > 0 && |inj| > 0 {
      var step := ScanPhase(state, phases[0], inj[0], notUsed, dead);
      if step.Success? {
        var next := step.value;
        ScanAllSucceeds(next, phases[1..], inj[1..], notUsed, dead);
        forall ch | ch in chans
          ensures ChannelHistory(state[ch], phases, inj, ch) == ChannelHistory(next[ch], phases[1..], inj[1..], ch)
        {
          assert ChannelStep(state[ch], phases[0], inj[0][ch]) == Success(next[ch]);
        }
      } else {
        var ch :| ch in chans && ChannelFails(inj[0], ch);
        assert ChannelHistory(state[ch], phases, inj, ch).Failure?;
      }
    }
  }

  /** Every time the scan records decodes back to a phase in `allowed` when every phase
      setting is in `allowed` and the series started out that way. */
  lemma {:induction false} ScanAllDecodes(state: seq<Series>, phases: seq<int>, inj: seq<seq<Samples>>,
                                          notUsed: seq<int>, dead: seq<int>, allowed: seq<int>)
    requires |state| == ChannelsPerAsic * TotalAsic
    requires forall k :: 0 <= k < |phases| ==> 0 <= phases[k] < 16 && phases[k] in allowed
    requires AllDecodeInto(state, allowed)
    ensures var r := ScanAll(state, phases, inj, notUsed, dead);
            r.Success? ==> AllDecodeInto(r.value, allowed)
    decreases |phases|
  {
    var r := ScanAll(state, phases, inj, notUsed, dead);
    if r.Success? && |phases| > 0 {
      var step := ScanPhase(state, phases[0], inj[0], notUsed, dead);
      assert step.Success?;
      var next := step.value;
      assert r == ScanAll(next, phases[1..], inj[1..], notUsed, dead);
      ScanPhaseDecodes(state, phases[0], inj[0], notUsed, dead, allowed);
      ScanAllDecodes(next, phases[1..], inj[1..], notUsed, dead, allowed);
    }
  }

  /** The 152 series the script starts from: all empty. */
  function InitialState(): (state: seq<Series>)
    ensures |state| == ChannelsPerAsic * TotalAsic
  {
    seq(ChannelsPerAsic * TotalAsic, ch => EmptySeries)
  }

  /** Starting from empty series, the CSV's phase column only ever names a phase that was
      scanned. */
  lemma ScanRecordsOnlyScannedPhases(phases: seq<int>, inj: seq<seq<Samples>>, notUsed: seq<int>, dead: seq<int>)
    requires forall k :: 0 <= k < |phases| ==> 0 <= phases[k] < 16
    ensures var r := ScanAll(InitialState(), phases, inj, notUsed, dead);
            r.Success? ==> AllDecodeInto(r.value, phases)
  {
    var init := InitialState();
    assert forall ch :: 0 <= ch < |init| ==> |init[ch].times| == 0;
    ScanAllDecodes(init, phases, inj, notUsed, dead, phases);
  }

  lemma ScanPhaseDecodes(state: seq<Series>, phase: int, inj: seq<Samples>, notUsed: seq<int>, dead: seq<int>,
                         allowed: seq<int>)
    requires |state| == ChannelsPerAsic * TotalAsic
    requires 0 <= phase < 16 && phase in allowed
    requires AllDecodeInto(state, allowed)
    ensures var r := ScanPhase(state, phase, inj, notUsed, dead);
            r.Success? ==> AllDecodeInto(r.value, allowed)
  {
    var chans := ScannedChannels(notUsed, dead);
    assert forall k :: 0 <= k < |chans| ==> chans[k] in chans;
    ScanChannelsDecodes(state, phase, inj, chans, allowed);
  }

  /** One channel loop adds only times that decode to its phase. */
  lemma {:induction false} ScanChannelsDecodes(state: seq<Series>, phase: int, inj: seq<Samples>, chans: seq<nat>,
                                               allowed: seq<int>)
    requires forall k :: 0 <= k < |chans| ==> chans[k] < |state|
    requires 0 <= phase < 16 && phase in allowed
    requires AllDecodeInto(state, allowed)
    ensures var r := ScanChannels(state, phase, inj, chans);
            r.Success? ==> AllDecodeInto(r.value, allowed)
    decreases |chans|
  {
    var r := ScanChannels(state, phase, inj, chans);
    if r.Success? && |chans| > 0 {
      var ch := chans[0];
      var smp := inj[ch];
      var s := ChannelStep(state[ch], phase, smp).value;
      ExtendDecodes(state[ch], phase, smp, NonZero(smp.adc), allowed);
      var mid := state[ch := s];
      assert AllDecodeInto(mid, allowed) by {
        forall c | 0 <= c < |mid|
          ensures DecodesInto(mid[c], allowed)
        {
          if c != ch {
            assert mid[c] == state[c];
          }
        }
      }
      ScanChannelsDecodes(mid, phase, inj, chans[1..], allowed);
    }
  }

  /** Extending a series whose times decode into `seen` keeps every time decoding into
      `seen`, provided `seen` holds the new phase. */
  lemma ExtendDecodes(s: Series, phase: int, smp: Samples, idx: seq<nat>, seen: seq<int>)
    requires 0 <= phase < 16 && phase in seen
    requires AllBelow(idx, |smp.adc|) && AllBelow(idx, OtherLength(smp))
    requires DecodesInto(s, seen)
    ensures DecodesInto(Extend(s, phase, smp, idx), seen)
  {
    var t := Extend(s, phase, smp, idx).times;
    var added := Times(phase, idx);
    forall j | 0 <= j < |t|
      ensures DecodePhase(t[j]) in seen
    {
      if j < |s.times| {
        assert t[j] == s.times[j];
      } else {
        var k := j - |s.times|;
        assert t[j] == added[k];
        DecodeSampleTime(phase, idx[k]);
      }
    }
  }
}
