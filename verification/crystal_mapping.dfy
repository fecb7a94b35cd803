/** The crystal-to-readout-channel mapping of the DESY beam-test centre finder
    (find_center.py): each of the 25 crystals sits on one port of one ASIC of one FPGA, and
    its 16 channels are the port's offsets shifted to that ASIC's block of 72 channels. */
module CrystalMapping {
  import opened Wrappers

  datatype Port = PortA | PortB | PortC | PortD

  /** Where a crystal is read out: FPGA name, ASIC number and port. The FPGA names are the
      strings "208" to "211" in the source; they serve only as lookup keys, so they are
      kept here as the numbers they spell. */
  datatype Slot = Slot(fpga: nat, asic: nat, port: Port)

  const CrystalCount: nat := 25
  const ChannelsPerAsicBlock: nat := 72
  const ChannelsPerFpga: nat := 144
  const FpgaCount: nat := 4

  /** `crystal_map`, indexed by crystal number (lines 45-71). */
  const CrystalMap: seq<Slot> :=
    [ Slot(210, 1, PortC), Slot(211, 0, PortA), Slot(209, 0, PortC), Slot(211, 1, PortA)
    , Slot(209, 1, PortA), Slot(209, 0, PortB), Slot(208, 1, PortD), Slot(210, 1, PortA)
    , Slot(211, 1, PortD), Slot(210, 0, PortA), Slot(209, 1, PortD), Slot(210, 0, PortC)
    , Slot(210, 0, PortD), Slot(209, 1, PortB), Slot(209, 0, PortD), Slot(210, 0, PortB)
    , Slot(208, 0, PortC), Slot(211, 0, PortB), Slot(208, 1, PortC), Slot(210, 1, PortB)
    , Slot(209, 1, PortC), Slot(208, 1, PortB), Slot(208, 0, PortA), Slot(210, 1, PortD)
    , Slot(209, 0, PortA) ]

  /** `fpga_index` (line 73). */
  const FpgaIndex: map<nat, nat> := map[208 := 0, 209 := 1, 210 := 2, 211 := 3]

  /** `port_maps` (lines 75-80): the channel offsets of a port within its ASIC block. */
  function PortOffsets(p: Port): (offs: seq<nat>)
    ensures |offs| == 16
  {
    match p
    case PortA => [2, 6, 11, 15, 0, 4, 9, 13, 1, 5, 10, 14, 3, 7, 12, 16]
    case PortB => [20, 24, 29, 33, 18, 22, 27, 31, 19, 23, 28, 32, 21, 25, 30, 34]
    case PortC => [67, 63, 59, 55, 69, 65, 61, 57, 70, 66, 60, 56, 68, 64, 58, 54]
    case PortD => [50, 46, 40, 36, 52, 48, 42, 38, 51, 47, 43, 39, 49, 45, 41, 37]
  }

  /** The offset range each port occupies (inclusive bounds). */
  function PortLow(p: Port): nat {
    match p
    case PortA => 0
    case PortB => 18
    case PortD => 36
    case PortC => 54
  }

  function PortHigh(p: Port): nat {
    PortLow(p) + 16
  }

  predicate IsSixteen(k: int) {
    k == 0 || k == 1 || k == 2 || k == 3 || k == 4 || k == 5 || k == 6 || k == 7 || k == 8
    || k == 9 || k == 10 || k == 11 || k == 12 || k == 13 || k == 14 || k == 15
  }

  predicate IsCrystal(n: int) {
    n == 0 || n == 1 || n == 2 || n == 3 || n == 4 || n == 5 || n == 6 || n == 7 || n == 8
    || n == 9 || n == 10 || n == 11 || n == 12 || n == 13 || n == 14 || n == 15 || n == 16
    || n == 17 || n == 18 || n == 19 || n == 20 || n == 21 || n == 22 || n == 23 || n == 24
  }

  /** Every offset of a port lies in the port's range, so below one ASIC block. */
  lemma PortOffsetsInRange(p: Port, k: int)
    requires 0 <= k < 16
    ensures PortLow(p) <= PortOffsets(p)[k] <= PortHigh(p)
    ensures PortOffsets(p)[k] < ChannelsPerAsicBlock
  {
    assert IsSixteen(k);
  }

  /** The port ranges do not overlap. */
  lemma PortRangesDisjoint(p: Port, q: Port)
    requires p != q
    ensures PortHigh(p) < PortLow(q) || PortHigh(q) < PortLow(p)
  {
  }

  /** Each port lists 16 distinct offsets. */
  lemma PortOffsetsDistinct(p: Port, i: int, j: int)
    requires 0 <= i < 16 && 0 <= j < 16 && i != j
    ensures PortOffsets(p)[i] != PortOffsets(p)[j]
  {
    assert IsSixteen(i);
    assert IsSixteen(j);
  }

  /** Offsets of different ports never coincide. */
  lemma PortOffsetsSeparate(p: Port, q: Port, i: int, j: int)
    requires 0 <= i < 16 && 0 <= j < 16 && p != q
    ensures PortOffsets(p)[i] != PortOffsets(q)[j]
  {
    PortOffsetsInRange(p, i);
    PortOffsetsInRange(q, j);
    PortRangesDisjoint(p, q);
  }

  /** Every crystal's slot names a known FPGA and ASIC 0 or 1. */
  lemma SlotWellFormed(n: int)
    requires 0 <= n < CrystalCount
    ensures CrystalMap[n].fpga in FpgaIndex && CrystalMap[n].asic < 2
  {
    assert IsCrystal(n);
  }

  /** No two crystals share a slot. */
  lemma CrystalMapInjective(n: int, m: int)
    requires 0 <= n < CrystalCount && 0 <= m < CrystalCount && n != m
    ensures CrystalMap[n] != CrystalMap[m]
  {
    assert IsCrystal(n);
    assert IsCrystal(m);
  }

  /** `fpga_index` gives different FPGAs different indices, all below 4. */
  lemma FpgaIndexInjective(f: nat, g: nat)
    requires f in FpgaIndex && g in FpgaIndex
    ensures FpgaIndex[f] < FpgaCount
    ensures FpgaIndex[f] == FpgaIndex[g] ==> f == g
  {
  }

  /** The first channel of a crystal's ASIC block (line 117). */
  function Base(n: int): (b: nat)
    requires 0 <= n < CrystalCount
    ensures b % ChannelsPerAsicBlock == 0
    ensures b / ChannelsPerAsicBlock == 2 * FpgaIndex[CrystalMap[n].fpga] + CrystalMap[n].asic
    ensures b + ChannelsPerAsicBlock <= FpgaCount * ChannelsPerFpga
  {
    SlotWellFormed(n);
    var s := CrystalMap[n];
    FpgaIndexInjective(s.fpga, s.fpga);
    ChannelsPerFpga * FpgaIndex[s.fpga] + ChannelsPerAsicBlock * s.asic
  }

  /** `crystal_channels` (lines 115-118). A crystal number outside the table is a
      KeyError, modelled as None. */
  function CrystalChannels(n: int): (r: Option<seq<nat>>)
    ensures r.Some? <==> 0 <= n < CrystalCount
    ensures r.Some? ==> |r.value| == 16
    ensures r.Some? ==> forall k :: 0 <= k < 16 ==>
              Base(n) <= r.value[k] < Base(n) + ChannelsPerAsicBlock
              && r.value[k] < FpgaCount * ChannelsPerFpga
    ensures r.Some? ==> forall i, j :: 0 <= i < 16 && 0 <= j < 16 && i != j ==> r.value[i] != r.value[j]
  {
    if 0 <= n < CrystalCount then
      var offs := PortOffsets(CrystalMap[n].port);
      var chans := seq(16, k requires 0 <= k < 16 => Base(n) + offs[k]);
      forall k | 0 <= k < 16
        ensures Base(n) <= chans[k] < Base(n) + ChannelsPerAsicBlock
      {
        PortOffsetsInRange(CrystalMap[n].port, k);
      }
      forall i, j | 0 <= i < 16 && 0 <= j < 16 && i != j
        ensures chans[i] != chans[j]
      {
        PortOffsetsDistinct(CrystalMap[n].port, i, j);
      }
      Some(chans)
    else None
  }

  /** A channel determines its ASIC block and its offset within that block. */
  lemma SplitChannel(b1: nat, o1: nat, b2: nat, o2: nat)
    requires b1 % ChannelsPerAsicBlock == 0 && b2 % ChannelsPerAsicBlock == 0
    requires o1 < ChannelsPerAsicBlock && o2 < ChannelsPerAsicBlock
    requires b1 + o1 == b2 + o2
    ensures b1 == b2 && o1 == o2
  {
    var q1 := b1 / ChannelsPerAsicBlock;
    var q2 := b2 / ChannelsPerAsicBlock;
    assert b1 == ChannelsPerAsicBlock * q1;
    assert b2 == ChannelsPerAsicBlock * q2;
  }

  /** Different crystals are read out on disjoint sets of channels. */
  lemma CrystalsDisjoint(n: int, m: int, i: int, j: int)
    requires 0 <= n < CrystalCount && 0 <= m < CrystalCount && n != m
    requires 0 <= i < 16 && 0 <= j < 16
    ensures CrystalChannels(n).value[i] != CrystalChannels(m).value[j]
  {
    var sn := CrystalMap[n];
    var sm := CrystalMap[m];
    SlotWellFormed(n);
    SlotWellFormed(m);
    PortOffsetsInRange(sn.port, i);
    PortOffsetsInRange(sm.port, j);
    if CrystalChannels(n).value[i] == CrystalChannels(m).value[j] {
      SplitChannel(Base(n), PortOffsets(sn.port)[i], Base(m), PortOffsets(sm.port)[j]);
      FpgaIndexInjective(sn.fpga, sm.fpga);
      assert sn.fpga == sm.fpga && sn.asic == sm.asic;
      if sn.port != sm.port {
        PortOffsetsSeparate(sn.port, sm.port, i, j);
      }
      CrystalMapInjective(n, m);
    }
  }
}
