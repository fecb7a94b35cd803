/** Register images prepared by the internal-injection DAQ script (009_IntInjection_2V5.py):
    the 8-byte Top register images that switch the ASIC's LR bits on and off and carry the
    clock phase in byte 7, the fixed overrides of the Global_Analog and Digital_Half
    payloads, and the normalisation of register names before the I2C address lookup. */
module InjectionRegisters {
  import opened Wrappers
  import opened Text

  type Byte = bv8

  /** Python exceptions that the register code can raise (all of them end the script). */
  datatype RegisterError =
    | IndexOutOfRange        // IndexError from a list shorter than the code assumes
    | KeyIndexNotInteger     // ValueError from int() on the field after the first '_'
    | UnknownRegister        // KeyError from the I2C address table

  // ---------------------------------------------------------------------------
  // Phase nibble and Top register images (lines 311-319, 441-442)
  // ---------------------------------------------------------------------------

  /** Python `phase & 0x0F` for an arbitrary Python int (two's complement on negatives). */
  function PhaseNibble(phase: int): (b: Byte)
    ensures b <= 0x0F
    ensures 0 <= phase < 16 ==> b as int == phase
  {
    (phase % 16) as bv8
  }

  /** For a phase that fits in a byte, the nibble is the bitwise `& 0x0F` of that byte. */
  lemma PhaseNibbleIsMask(phase: Byte)
    ensures PhaseNibble(phase as int) == phase & 0x0F
  {
    LowNibbleMask(phase);
    ByteRoundTrip(phase & 0x0F);
  }

  lemma ByteRoundTrip(b: bv8)
    ensures (b as int) as bv8 == b
  {
  }

  lemma LowNibbleMask(x: bv8)
    ensures ((x & 0x0F) as int) == (x as int) % 16
  {
  }

  /** The phase only matters modulo 16. */
  lemma PhaseNibblePeriodic(phase: int)
    ensures PhaseNibble(phase + 16) == PhaseNibble(phase)
  {
    assert (phase + 16) % 16 == phase % 16;
  }

  /** Byte 0 with the two LR bits set and every other bit kept. */
  predicate LrBitsOn(b: Byte, original: Byte) {
    b & 0x03 == 0x03 && b & 0xFC == original & 0xFC
  }

  /** Byte 0 with the two LR bits cleared and every other bit kept. */
  predicate LrBitsOff(b: Byte, original: Byte) {
    b & 0x03 == 0x00 && b & 0xFC == original & 0xFC
  }

  /** The "LR on" image of the Top register: byte 0 or-ed with 0x03, the list cut to
      8 bytes, byte 7 replaced by the phase nibble (lines 311-314). A list shorter than
      8 bytes makes one of the Python index operations raise. */
  function RunLrImage(top: seq<Byte>, phase: int): (r: Result<seq<Byte>, RegisterError>)
    ensures r.Success? <==> |top| >= 8
    ensures r.Success? ==>
              && |r.value| == 8
              && LrBitsOn(r.value[0], top[0])
              && r.value[1..7] == top[1..7]
              && r.value[7] == PhaseNibble(phase)
  {
    if |top| == 0 then Failure(IndexOutOfRange)
    else
      var image := top[0 := top[0] | 0x03];
      var cut := image[..if |image| < 8 then |image| else 8];
      if |cut| < 8 then Failure(IndexOutOfRange)
      else Success(cut[7 := PhaseNibble(phase)])
  }

  /** The "LR off" image: as `RunLrImage` but byte 0 and-ed with 0xFC (lines 316-319). */
  function OffLrImage(top: seq<Byte>, phase: int): (r: Result<seq<Byte>, RegisterError>)
    ensures r.Success? <==> |top| >= 8
    ensures r.Success? ==>
              && |r.value| == 8
              && LrBitsOff(r.value[0], top[0])
              && r.value[1..7] == top[1..7]
              && r.value[7] == PhaseNibble(phase)
  {
    if |top| == 0 then Failure(IndexOutOfRange)
    else
      var image := top[0 := top[0] & 0xFC];
      var cut := image[..if |image| < 8 then |image| else 8];
      if |cut| < 8 then Failure(IndexOutOfRange)
      else Success(cut[7 := PhaseNibble(phase)])
  }

  /** The two images differ in byte 0 only, and only in its two LR bits: switching the
      LR bits of one image on or off gives the other. */
  lemma LrImagesDifferOnlyInLrBits(top: seq<Byte>, phase: int)
    requires |top| >= 8
    ensures RunLrImage(top, phase).value[1..] == OffLrImage(top, phase).value[1..]
    ensures RunLrImage(top, phase).value[0] == OffLrImage(top, phase).value[0] | 0x03
    ensures OffLrImage(top, phase).value[0] == RunLrImage(top, phase).value[0] & 0xFC
  {
    var on := RunLrImage(top, phase).value;
    var off := OffLrImage(top, phase).value;
    assert on[1..] == on[1..7] + [on[7]];
    assert off[1..] == off[1..7] + [off[7]];
    LrByteFromUpperBits(on[0], off[0]);
  }

  /** A byte is determined by its upper six bits and its two LR bits. */
  lemma LrByteFromUpperBits(on: Byte, off: Byte)
    requires on & 0x03 == 0x03 && off & 0x03 == 0x00 && on & 0xFC == off & 0xFC
    ensures on == off | 0x03 && off == on & 0xFC
  {
  }

  /** Rewrite the phase nibble of an 8-byte image (lines 441-442). The images handled
      here are always the 8-byte images built by `RunLrImage` and `OffLrImage`. */
  function SetPhase(image: seq<Byte>, phase: int): (r: seq<Byte>)
    requires |image| == 8
    ensures |r| == 8
    ensures r[7] == PhaseNibble(phase)
    ensures r[..7] == image[..7]
  {
    image[7 := PhaseNibble(phase)]
  }

  /** A phase change rewrites nothing but byte 7: the updated images are exactly the
      images that would have been built with the new phase in the first place. */
  lemma SetPhaseRebuilds(top: seq<Byte>, phase0: int, phase: int)
    requires |top| >= 8
    ensures SetPhase(RunLrImage(top, phase0).value, phase) == RunLrImage(top, phase).value
    ensures SetPhase(OffLrImage(top, phase0).value, phase) == OffLrImage(top, phase).value
  {
  }

  // ---------------------------------------------------------------------------
  // Payload overrides (lines 390-412)
  // ---------------------------------------------------------------------------

  /** The four bytes forced in every Global_Analog payload (lines 393-396). */
  predicate GlobalAnalogIndex(i: int) {
    i == 8 || i == 9 || i == 10 || i == 14
  }

  /** The two bytes forced in every Digital_Half payload (lines 406-407). */
  predicate DigitalHalfIndex(i: int) {
    i == 4 || i == 25
  }

  /** Global_Analog payload with bytes 8, 9, 10 and 14 forced; a payload shorter than 15
      bytes makes one of the assignments raise IndexError. */
  function GlobalAnalogOverride(payload: seq<Byte>): (r: Result<seq<Byte>, RegisterError>)
    ensures r.Success? <==> |payload| >= 15
    ensures r.Success? ==>
              && |r.value| == |payload|
              && r.value[8] == 0xA0 && r.value[9] == 0xCA && r.value[10] == 0x42 && r.value[14] == 0x6F
              && forall i :: 0 <= i < |payload| && !GlobalAnalogIndex(i) ==> r.value[i] == payload[i]
  {
    if |payload| < 15 then Failure(IndexOutOfRange)
    else Success(payload[8 := 0xA0][9 := 0xCA][10 := 0x42][14 := 0x6F])
  }

  /** Digital_Half payload with bytes 4 and 25 forced; shorter than 26 bytes raises. */
  function DigitalHalfOverride(payload: seq<Byte>): (r: Result<seq<Byte>, RegisterError>)
    ensures r.Success? <==> |payload| >= 26
    ensures r.Success? ==>
              && |r.value| == |payload|
              && r.value[4] == 0xC0 && r.value[25] == 0x02
              && forall i :: 0 <= i < |payload| && !DigitalHalfIndex(i) ==> r.value[i] == payload[i]
  {
    if |payload| < 26 then Failure(IndexOutOfRange)
    else Success(payload[4 := 0xC0][25 := 0x02])
  }

  /** Applying an override twice changes nothing more. */
  lemma OverridesIdempotent(payload: seq<Byte>)
    ensures GlobalAnalogOverride(payload).Success? ==>
              GlobalAnalogOverride(GlobalAnalogOverride(payload).value) == GlobalAnalogOverride(payload)
    ensures DigitalHalfOverride(payload).Success? ==>
              DigitalHalfOverride(DigitalHalfOverride(payload).value) == DigitalHalfOverride(payload)
  {
    if |payload| >= 15 {
      var r := GlobalAnalogOverride(payload).value;
      assert r[8 := 0xA0][9 := 0xCA][10 := 0x42][14 := 0x6F] == r;
    }
    if |payload| >= 26 {
      var r := DigitalHalfOverride(payload).value;
      assert r[4 := 0xC0][25 := 0x02] == r;
    }
  }

  // ---------------------------------------------------------------------------
  // Register key normalisation (lines 377-385)
  // ---------------------------------------------------------------------------

  /** Python `s.replace(" ", "")`. */
  function RemoveSpaces(s: string): (r: string)
    ensures ' ' !in r
    ensures |r| == |s| - Count(s, ' ')
    ensures forall c :: c != ' ' ==> Count(r, c) == Count(s, c)
  {
    if |s| == 0 then ""
    else if s[0] == ' ' then RemoveSpaces(s[1..])
    else [s[0]] + RemoveSpaces(s[1..])
  }

  /** A string without spaces is left as it is; hence removing spaces is idempotent. */
  lemma {:induction false} RemoveSpacesNoop(s: string)
    requires ' ' !in s
    ensures RemoveSpaces(s) == s
  {
    if |s| > 0 {
      assert s[0] in s;
      assert forall c :: c in s[1..] ==> c in s;
      RemoveSpacesNoop(s[1..]);
    }
  }

  /** Python `s.replace("_", "_0")`: every underscore gets a '0' after it. */
  function PadUnderscores(s: string): (r: string)
    ensures |r| == |s| + Count(s, '_')
  {
    if |s| == 0 then ""
    else if s[0] == '_' then "_0" + PadUnderscores(s[1..])
    else [s[0]] + PadUnderscores(s[1..])
  }

  /** Drop the character that follows each underscore: the inverse of `PadUnderscores`. */
  function UnpadUnderscores(s: string): string
    decreases |s|
  {
    if |s| == 0 then ""
    else if s[0] == '_' then "_" + UnpadUnderscores(if |s| >= 2 then s[2..] else "")
    else [s[0]] + UnpadUnderscores(s[1..])
  }

  lemma {:induction false} UnpadPad(s: string)
    ensures UnpadUnderscores(PadUnderscores(s)) == s
  {
    if |s| > 0 {
      UnpadPad(s[1..]);
      if s[0] == '_' {
        assert ("_0" + PadUnderscores(s[1..]))[2..] == PadUnderscores(s[1..]);
      } else {
        assert ([s[0]] + PadUnderscores(s[1..]))[1..] == PadUnderscores(s[1..]);
      }
    }
  }

  /** Name of a channel-wise register (Channel_, CM_ or CALIB_) as looked up in the I2C
      address table: spaces removed and, for a `Channel_N` key with N < 10, every '_'
      followed by a '0' (lines 380-383). `int()` of the field after the first '_' may
      raise ValueError. */
  function NormaliseChannelWiseKey(key: string): (r: Result<string, RegisterError>)
    ensures r.Success? ==> ' ' !in r.value
    ensures !Contains(key, "Channel_") ==> r == Success(RemoveSpaces(key))
    ensures r.Success? ==> UnpadUnderscores(r.value) == RemoveSpaces(key) || r.value == RemoveSpaces(key)
    ensures Contains(key, "Channel_") ==>
      var fields := Split(RemoveSpaces(key), '_');
      && |fields| >= 2
      && (r.Failure? <==> ParseInt(fields[1]).None?)
      && (r.Failure? ==> r.error == KeyIndexNotInteger)
      && (r.Success? ==> (r.value == PadUnderscores(RemoveSpaces(key)) <==> ParseInt(fields[1]).value < 10))
      && (r.Success? && ParseInt(fields[1]).value >= 10 ==> r.value == RemoveSpaces(key))
  {
    var clear := RemoveSpaces(key);
    if Contains(key, "Channel_") then
      UnderscoreKept(key);
      var fields := Split(clear, '_');
      match ParseInt(fields[1])
      case None => Failure(KeyIndexNotInteger)
      case Some(n) =>
        UnpadPad(clear);
        PadKeepsNoSpace(clear);
        if n < 10 then Success(PadUnderscores(clear)) else Success(clear)
    else Success(clear)
  }

  lemma {:induction false} PadKeepsNoSpace(s: string)
    requires ' ' !in s
    ensures ' ' !in PadUnderscores(s)
  {
    if |s| > 0 {
      assert s[0] in s;
      assert forall c :: c in s[1..] ==> c in s;
      PadKeepsNoSpace(s[1..]);
    }
  }

  /** A key containing "Channel_" still has an underscore after the spaces are removed,
      so the Python `split("_")[1]` exists. */
  lemma UnderscoreKept(key: string)
    requires Contains(key, "Channel_")
    ensures Count(RemoveSpaces(key), '_') >= 1
  {
    var i :| 0 <= i <= |key| - 8 && OccursAt(key, "Channel_", i);
    assert key[i + 7] == "Channel_"[7];
    assert '_' in key;
  }

  // The lemmas below show that a register name as it appears in the settings file,
  // "Channel_N" followed by blanks, is looked up as "Channel_0N" for N < 10.

  /** What `RemoveSpaces` keeps of one character. */
  function KeepNonSpace(c: char): string {
    if c == ' ' then "" else [c]
  }

  lemma RemoveSpacesCons(s: string)
    requires |s| > 0
    ensures RemoveSpaces(s) == KeepNonSpace(s[0]) + RemoveSpaces(s[1..])
  {
  }

  lemma {:induction false} RemoveSpacesAppend(a: string, b: string)
    ensures RemoveSpaces(a + b) == RemoveSpaces(a) + RemoveSpaces(b)
  {
    if |a| > 0 {
      var ab := a + b;
      assert ab[1..] == a[1..] + b;
      assert ab[0] == a[0];
      calc {
        RemoveSpaces(ab);
        == { RemoveSpacesCons(ab); }
        KeepNonSpace(a[0]) + RemoveSpaces(a[1..] + b);
        == { RemoveSpacesAppend(a[1..], b); }
        KeepNonSpace(a[0]) + (RemoveSpaces(a[1..]) + RemoveSpaces(b));
        == (KeepNonSpace(a[0]) + RemoveSpaces(a[1..])) + RemoveSpaces(b);
        == { RemoveSpacesCons(a); }
        RemoveSpaces(a) + RemoveSpaces(b);
      }
    } else {
      assert a + b == b;
    }
  }

  function Blanks(k: nat): (s: string)
    ensures |s| == k
  {
    seq(k, i => ' ')
  }

  lemma {:induction false} RemoveBlanks(k: nat)
    ensures RemoveSpaces(Blanks(k)) == ""
  {
    if k > 0 {
      assert Blanks(k)[1..] == Blanks(k - 1);
      RemoveBlanks(k - 1);
    }
  }

  /** What `PadUnderscores` turns one character into. */
  function PadChar(c: char): string {
    if c == '_' then "_0" else [c]
  }

  lemma PadCons(s: string)
    requires |s| > 0
    ensures PadUnderscores(s) == PadChar(s[0]) + PadUnderscores(s[1..])
  {
  }

  lemma {:induction false} PadUnderscoresAppend(a: string, b: string)
    ensures PadUnderscores(a + b) == PadUnderscores(a) + PadUnderscores(b)
  {
    if |a| > 0 {
      var ab := a + b;
      assert ab[1..] == a[1..] + b;
      assert ab[0] == a[0];
      calc {
        PadUnderscores(ab);
        == { PadCons(ab); }
        PadChar(a[0]) + PadUnderscores(a[1..] + b);
        == { PadUnderscoresAppend(a[1..], b); }
        PadChar(a[0]) + (PadUnderscores(a[1..]) + PadUnderscores(b));
        == (PadChar(a[0]) + PadUnderscores(a[1..])) + PadUnderscores(b);
        == { PadCons(a); }
        PadUnderscores(a) + PadUnderscores(b);
      }
    } else {
      assert a + b == b;
    }
  }

  lemma {:induction false} PadUnderscoresNoop(s: string)
    requires '_' !in s
    ensures PadUnderscores(s) == s
  {
    if |s| > 0 {
      assert s[0] in s;
      assert forall c :: c in s[1..] ==> c in s;
      PadUnderscoresNoop(s[1..]);
    }
  }

  lemma {:induction false} SplitNoSeparator(s: string, sep: char)
    requires sep !in s
    ensures Split(s, sep) == [s]
  {
    if |s| > 0 {
      assert s[0] in s;
      assert forall c :: c in s[1..] ==> c in s;
      SplitNoSeparator(s[1..], sep);
      assert [s[0]] + s[1..] == s;
    }
  }

  lemma {:induction false} SplitAfterFirst(a: string, b: string, sep: char)
    requires sep !in a
    ensures Split(a + [sep] + b, sep) == [a] + Split(b, sep)
  {
    var s := a + [sep] + b;
    if |a| == 0 {
      assert s == [sep] + b;
      assert s[1..] == b;
    } else {
      assert a[0] in a;
      assert forall c :: c in a[1..] ==> c in a;
      assert s[1..] == a[1..] + [sep] + b;
      assert s[0] == a[0] != sep;
      SplitAfterFirst(a[1..], b, sep);
      SplitCons(s, sep);
      assert [a[0]] + a[1..] == a;
    }
  }

  /** One step of `Split` on a string that starts with an ordinary character. */
  lemma SplitCons(s: string, sep: char)
    requires |s| > 0 && s[0] != sep
    ensures var rest := Split(s[1..], sep);
            Split(s, sep) == [[s[0]] + rest[0]] + rest[1..]
  {
  }

  lemma DigitsHaveNoSpecials(d: string)
    requires AllDigits(d)
    ensures ' ' !in d && '_' !in d
  {
  }

  /** Blanks after a register name are dropped. */
  lemma ChannelKeyClear(d: string, blanks: nat)
    requires AllDigits(d)
    ensures RemoveSpaces("Channel_" + d + Blanks(blanks)) == "Channel_" + d
  {
    DigitsHaveNoSpecials(d);
    RemoveSpacesAppend("Channel_" + d, Blanks(blanks));
    RemoveBlanks(blanks);
    RemoveSpacesAppend("Channel_", d);
    RemoveSpacesNoop("Channel_");
    RemoveSpacesNoop(d);
  }

  lemma ChannelKeyIndexField(d: string)
    requires AllDigits(d)
    ensures |Split("Channel_" + d, '_')| >= 2 && Split("Channel_" + d, '_')[1] == d
  {
    DigitsHaveNoSpecials(d);
    assert "Channel_" + d == "Channel" + ['_'] + d;
    SplitAfterFirst("Channel", d, '_');
    SplitNoSeparator(d, '_');
  }

  lemma ChannelKeyPadded(d: string)
    requires AllDigits(d)
    ensures PadUnderscores("Channel_" + d) == "Channel_0" + d
  {
    DigitsHaveNoSpecials(d);
    var tail := "_" + d;
    assert tail[0] == '_' && tail[1..] == d;
    calc {
      PadUnderscores("Channel_" + d);
      == { assert "Channel_" + d == "Channel" + tail; }
      PadUnderscores("Channel" + tail);
      == { PadUnderscoresAppend("Channel", tail); }
      PadUnderscores("Channel") + PadUnderscores(tail);
      == { PadUnderscoresNoop("Channel"); }
      "Channel" + PadUnderscores(tail);
      == { PadCons(tail); }
      "Channel" + ("_0" + PadUnderscores(d));
      == { PadUnderscoresNoop(d); }
      "Channel" + ("_0" + d);
      == "Channel_0" + d;
    }
  }

  lemma ChannelKeyMatches(d: string, blanks: nat)
    ensures Contains("Channel_" + d + Blanks(blanks), "Channel_")
  {
    var key := "Channel_" + d + Blanks(blanks);
    assert key[0..8] == "Channel_";
    assert OccursAt(key, "Channel_", 0);
  }

  /** A settings-file name "Channel_" + digits (any trailing blanks) is looked up with a
      '0' inserted after the underscore when the index is below 10, and unchanged otherwise. */
  lemma ChannelKeyDigits(d: string, blanks: nat)
    requires 1 <= |d| && AllDigits(d)
    ensures NormaliseChannelWiseKey("Channel_" + d + Blanks(blanks))
         == Success(if DigitsValue(d) < 10 then "Channel_0" + d else "Channel_" + d)
  {
    var key := "Channel_" + d + Blanks(blanks);
    ChannelKeyMatches(d, blanks);
    ChannelKeyClear(d, blanks);
    ChannelKeyIndexField(d);
    if DigitsValue(d) < 10 {
      ChannelKeyPadded(d);
    }
  }

  /** A settings-file name "Channel_N" (any trailing blanks) is looked up as "Channel_0N"
      when N < 10 and as "Channel_N" otherwise. */
  lemma ChannelKeyPadding(n: nat, blanks: nat)
    ensures NormaliseChannelWiseKey("Channel_" + NatToDigits(n) + Blanks(blanks))
         == Success("Channel_" + (if n < 10 then "0" else "") + NatToDigits(n))
  {
    var d := NatToDigits(n);
    ChannelKeyDigits(d, blanks);
    if n < 10 {
      assert "Channel_" + "0" + d == "Channel_0" + d;
    } else {
      assert "Channel_" + "" + d == "Channel_" + d;
    }
  }

  // ---------------------------------------------------------------------------
  // One register write of the configuration loop (lines 376-412)
  // ---------------------------------------------------------------------------

  /** Which branch of the configuration loop a register name takes. */
  datatype RegisterKind = ChannelWise | GlobalAnalog | DigitalHalf | NotWritten

  function KindOf(key: string): RegisterKind
  {
    if Contains(key, "Channel_") || Contains(key, "CM_") || Contains(key, "CALIB_") then ChannelWise
    else if Contains(key, "Global_Analog_") then GlobalAnalog
    else if Contains(key, "Digital_Half_") then DigitalHalf
    else NotWritten
  }

  /** An I2C register write handed to the (unmodelled) transport. */
  datatype I2cWrite = I2cWrite(asic: int, subAddress: int, data: seq<Byte>)

  /** The write the configuration loop issues for one register of one ASIC, if any.
      `addresses` is the I2C address table read from the register description file. A
      channel-wise key is looked up under its normalised name; a Global_Analog or
      Digital_Half key under its space-free name, after the payload overrides, whose
      IndexError comes first. */
  function PrepareWrite(asic: int, key: string, payload: seq<Byte>, addresses: map<string, int>)
    : (r: Result<Option<I2cWrite>, RegisterError>)
    ensures KindOf(key) == NotWritten <==> r == Success(None)
    ensures KindOf(key) == ChannelWise ==>
              var name := NormaliseChannelWiseKey(key);
              && (r.Success? <==> name.Success? && name.value in addresses)
              && (r.Success? ==> r.value == Some(I2cWrite(asic, addresses[name.value], payload)))
              && (r.Failure? ==> r.error == if name.Failure? then name.error else UnknownRegister)
    ensures KindOf(key) == GlobalAnalog ==>
              var data := GlobalAnalogOverride(payload);
              && (r.Success? <==> data.Success? && RemoveSpaces(key) in addresses)
              && (r.Success? ==> r.value == Some(I2cWrite(asic, addresses[RemoveSpaces(key)], data.value)))
              && (r.Failure? ==> r.error == if data.Failure? then data.error else UnknownRegister)
    ensures KindOf(key) == DigitalHalf ==>
              var data := DigitalHalfOverride(payload);
              && (r.Success? <==> data.Success? && RemoveSpaces(key) in addresses)
              && (r.Success? ==> r.value == Some(I2cWrite(asic, addresses[RemoveSpaces(key)], data.value)))
              && (r.Failure? ==> r.error == if data.Failure? then data.error else UnknownRegister)
  {
    match KindOf(key)
    case NotWritten => Success(None)
    case ChannelWise =>
      var name :- NormaliseChannelWiseKey(key);
      if name in addresses then Success(Some(I2cWrite(asic, addresses[name], payload)))
      else Failure(UnknownRegister)
    case GlobalAnalog =>
      var data :- GlobalAnalogOverride(payload);
      var name := RemoveSpaces(key);
      if name in addresses then Success(Some(I2cWrite(asic, addresses[name], data)))
      else Failure(UnknownRegister)
    case DigitalHalf =>
      var data :- DigitalHalfOverride(payload);
      var name := RemoveSpaces(key);
      if name in addresses then Success(Some(I2cWrite(asic, addresses[name], data)))
      else Failure(UnknownRegister)
  }

  /** A `Channel_N` register (any trailing blanks) is written, payload unchanged, to the
      address of "Channel_0N" when N < 10 and of "Channel_N" otherwise, and raises KeyError
      when that name has no address. */
  lemma ChannelWriteAddress(asic: int, n: nat, blanks: nat, payload: seq<Byte>, addresses: map<string, int>)
    ensures var name := "Channel_" + (if n < 10 then "0" else "") + NatToDigits(n);
            var r := PrepareWrite(asic, "Channel_" + NatToDigits(n) + Blanks(blanks), payload, addresses);
            && (r.Success? <==> name in addresses)
            && (r.Success? ==> r.value == Some(I2cWrite(asic, addresses[name], payload)))
            && (r.Failure? ==> r.error == UnknownRegister)
  {
    var key := "Channel_" + NatToDigits(n) + Blanks(blanks);
    ChannelKeyMatches(NatToDigits(n), blanks);
    assert KindOf(key) == ChannelWise;
    ChannelKeyPadding(n, blanks);
  }

  /** The settings the configuration loop writes, in file order. */
  function WrittenSettings(settings: seq<(string, seq<Byte>)>): (w: seq<(string, seq<Byte>)>)
    ensures |w| <= |settings|
    ensures forall x :: x in w <==> x in settings && KindOf(x.0) != NotWritten
  {
    if |settings| == 0 then []
    else
      var rest := WrittenSettings(settings[1..]);
      assert forall x :: x in settings <==> x == settings[0] || x in settings[1..];
      if KindOf(settings[0].0) == NotWritten then rest else [settings[0]] + rest
  }

  /** Every setting's write can be prepared. */
  predicate AllPrepared(asic: int, settings: seq<(string, seq<Byte>)>, addresses: map<string, int>) {
    forall i :: 0 <= i < |settings| ==> PrepareWrite(asic, settings[i].0, settings[i].1, addresses).Success?
  }

  /** `writes` are the prepared writes of `written`, one each and in order. */
  predicate WritesOf(asic: int, written: seq<(string, seq<Byte>)>, addresses: map<string, int>, writes: seq<I2cWrite>) {
    && |writes| == |written|
    && forall k :: 0 <= k < |written| ==> PrepareWrite(asic, written[k].0, written[k].1, addresses) == Success(Some(writes[k]))
  }

  /** All writes for one ASIC, in the order of the settings file; the first exception
      ends the script (lines 374-412). */
  function AsicWrites(asic: int, settings: seq<(string, seq<Byte>)>, addresses: map<string, int>)
    : (r: Result<seq<I2cWrite>, RegisterError>)
    ensures r.Success? <==> AllPrepared(asic, settings, addresses)
    ensures r.Success? ==> WritesOf(asic, WrittenSettings(settings), addresses, r.value)
  {
    if |settings| == 0 then Success([])
    else
      AllPreparedCons(asic, settings, addresses);
      var first :- PrepareWrite(asic, settings[0].0, settings[0].1, addresses);
      var rest :- AsicWrites(asic, settings[1..], addresses);
      match first
      case None => Success(rest)
      case Some(w) => Success([w] + rest)
  }

  /** Every write of a pass over one ASIC's settings is addressed to that ASIC. */
  lemma WritesAreForAsic(asic: int, settings: seq<(string, seq<Byte>)>, addresses: map<string, int>)
    requires AsicWrites(asic, settings, addresses).Success?
    ensures forall k :: 0 <= k < |AsicWrites(asic, settings, addresses).value| ==>
              AsicWrites(asic, settings, addresses).value[k].asic == asic
  {
    var w := WrittenSettings(settings);
    var writes := AsicWrites(asic, settings, addresses).value;
    forall k | 0 <= k < |writes|
      ensures writes[k].asic == asic
    {
      assert PrepareWrite(asic, w[k].0, w[k].1, addresses) == Success(Some(writes[k]));
    }
  }

  lemma AllPreparedCons(asic: int, settings: seq<(string, seq<Byte>)>, addresses: map<string, int>)
    requires |settings| > 0
    ensures AllPrepared(asic, settings, addresses) <==>
              PrepareWrite(asic, settings[0].0, settings[0].1, addresses).Success? && AllPrepared(asic, settings[1..], addresses)
  {
    assert forall i :: 0 < i < |settings| ==> settings[i] == settings[1..][i - 1];
  }

  /** A failing pass stops at the first setting whose write cannot be prepared and raises
      that setting's error. */
  lemma {:induction false} AsicWritesFirstError(asic: int, settings: seq<(string, seq<Byte>)>, addresses: map<string, int>)
    returns (i: nat)
    requires AsicWrites(asic, settings, addresses).Failure?
    ensures i < |settings|
    ensures AllPrepared(asic, settings[..i], addresses)
    ensures PrepareWrite(asic, settings[i].0, settings[i].1, addresses) == Failure(AsicWrites(asic, settings, addresses).error)
  {
    if PrepareWrite(asic, settings[0].0, settings[0].1, addresses).Failure? {
      i := 0;
    } else {
      var j := AsicWritesFirstError(asic, settings[1..], addresses);
      i := j + 1;
      assert settings[..i][1..] == settings[1..][..j];
      AllPreparedCons(asic, settings[..i], addresses);
    }
  }

  // ---------------------------------------------------------------------------
  // Top register writes of one phase step (lines 438-459)
  // ---------------------------------------------------------------------------

  /** The two Top register images kept in `scan_config` for one ASIC. */
  datatype AsicImages = AsicImages(runLr: seq<Byte>, offLr: seq<Byte>)

  predicate WellFormed(c: AsicImages) {
    |c.runLr| == 8 && |c.offLr| == 8
  }

  /** The `scan_config` images of one ASIC, built from its Top register (lines 308-319). */
  function BuildAsicImages(top: seq<Byte>, phase: int): (r: Result<AsicImages, RegisterError>)
    ensures r.Success? <==> |top| >= 8
    ensures r.Success? ==> WellFormed(r.value)
  {
    if |top| < 8 then Failure(IndexOutOfRange)
    else Success(AsicImages(RunLrImage(top, phase).value, OffLrImage(top, phase).value))
  }

  /** The images after a phase change, and the images sent to each ASIC to switch its
      LR bits on before the injection and off after it. Entry `a` of each sequence
      belongs to ASIC `a`. */
  datatype PhaseWrites = PhaseWrites(configs: seq<AsicImages>, lrOn: seq<seq<Byte>>, lrOff: seq<seq<Byte>>)

  function Rephase(c: AsicImages, phase: int): (r: AsicImages)
    requires WellFormed(c)
    ensures WellFormed(r)
  {
    AsicImages(SetPhase(c.runLr, phase), SetPhase(c.offLr, phase))
  }

  function WithPhase(configs: seq<AsicImages>, phase: int): (r: seq<AsicImages>)
    requires forall a :: 0 <= a < |configs| ==> WellFormed(configs[a])
    ensures |r| == |configs|
    ensures forall a :: 0 <= a < |r| ==> r[a] == Rephase(configs[a], phase)
  {
    seq(|configs|, a requires 0 <= a < |configs| && WellFormed(configs[a]) => Rephase(configs[a], phase))
  }

  /** The phase step as the script does it: the "LR on" write uses `_asic_config`, the
      variable left over from the loop at line 375, which is the LAST ASIC's entry, so
      every ASIC is sent the last ASIC's "LR on" image (line 451); the "LR off" write
      uses each ASIC's own image (line 458). */
  function PhaseStepAsWritten(configs: seq<AsicImages>, phase: int): (w: PhaseWrites)
    requires |configs| >= 1
    requires forall a :: 0 <= a < |configs| ==> WellFormed(configs[a])
    ensures |w.configs| == |w.lrOn| == |w.lrOff| == |configs|
    ensures forall a :: 0 <= a < |configs| ==>
              && WellFormed(configs[a]) && WellFormed(w.configs[a])
              && w.configs[a].runLr[..7] == configs[a].runLr[..7]
              && w.configs[a].offLr[..7] == configs[a].offLr[..7]
              && w.configs[a].runLr[7] == PhaseNibble(phase) == w.configs[a].offLr[7]
    ensures forall a :: 0 <= a < |configs| ==> w.lrOn[a] == w.configs[|configs| - 1].runLr
    ensures forall a :: 0 <= a < |configs| ==> w.lrOff[a] == w.configs[a].offLr
  {
    var updated := WithPhase(configs, phase);
    var last := updated[|configs| - 1];
    PhaseWrites(updated, seq(|configs|, a => last.runLr),
                seq(|configs|, a requires 0 <= a < |configs| => updated[a].offLr))
  }

  /** The evidently intended phase step: each ASIC is sent its own "LR on" image, as the
      commented-out write after the configuration loop (line 414) and the "LR off" write
      (line 458) do. */
  function PhaseStep(configs: seq<AsicImages>, phase: int): (w: PhaseWrites)
    requires forall a :: 0 <= a < |configs| ==> WellFormed(configs[a])
    ensures |w.configs| == |w.lrOn| == |w.lrOff| == |configs|
    ensures forall a :: 0 <= a < |configs| ==>
              && WellFormed(configs[a]) && WellFormed(w.configs[a])
              && w.configs[a].runLr[..7] == configs[a].runLr[..7]
              && w.configs[a].offLr[..7] == configs[a].offLr[..7]
              && w.configs[a].runLr[7] == PhaseNibble(phase) == w.configs[a].offLr[7]
    ensures forall a :: 0 <= a < |configs| ==> w.lrOn[a] == w.configs[a].runLr
    ensures forall a :: 0 <= a < |configs| ==> w.lrOff[a] == w.configs[a].offLr
  {
    var updated := WithPhase(configs, phase);
    PhaseWrites(updated, seq(|configs|, a requires 0 <= a < |configs| => updated[a].runLr),
                seq(|configs|, a requires 0 <= a < |configs| => updated[a].offLr))
  }

  /** With the intended step, ASIC `a` is switched on and off with the images of its own
      Top register at the new phase: the "LR on" and "LR off" images differ in the two LR
      bits of byte 0 only. */
  lemma PhaseStepSwitchesOwnAsic(tops: seq<seq<Byte>>, phase0: int, phase: int)
    requires forall a :: 0 <= a < |tops| ==> |tops[a]| >= 8
    ensures
      var configs := seq(|tops|, a requires 0 <= a < |tops| => BuildAsicImages(tops[a], phase0).value);
      forall a :: 0 <= a < |tops| ==>
        && PhaseStep(configs, phase).lrOn[a] == RunLrImage(tops[a], phase).value
        && PhaseStep(configs, phase).lrOff[a] == OffLrImage(tops[a], phase).value
  {
    var configs := seq(|tops|, a requires 0 <= a < |tops| => BuildAsicImages(tops[a], phase0).value);
    forall a | 0 <= a < |tops|
      ensures PhaseStep(configs, phase).lrOn[a] == RunLrImage(tops[a], phase).value
      ensures PhaseStep(configs, phase).lrOff[a] == OffLrImage(tops[a], phase).value
    {
      SetPhaseRebuilds(tops[a], phase0, phase);
    }
  }

  /** The script's step agrees with the intended one for ASIC `a` exactly when the first
      seven bytes of its "LR on" image equal those of the last ASIC. */
  lemma AsWrittenAgreesIff(configs: seq<AsicImages>, phase: int, a: int)
    requires |configs| >= 1
    requires forall b :: 0 <= b < |configs| ==> WellFormed(configs[b])
    requires 0 <= a < |configs|
    ensures PhaseStepAsWritten(configs, phase).lrOn[a] == PhaseStep(configs, phase).lrOn[a]
        <==> configs[a].runLr[..7] == configs[|configs| - 1].runLr[..7]
  {
    var w := PhaseStepAsWritten(configs, phase);
    var v := PhaseStep(configs, phase);
    var last := |configs| - 1;
    if w.lrOn[a] == v.lrOn[a] {
      assert w.lrOn[a][..7] == configs[last].runLr[..7];
      assert v.lrOn[a][..7] == configs[a].runLr[..7];
    }
    if configs[a].runLr[..7] == configs[last].runLr[..7] {
      assert w.lrOn[a] == w.configs[last].runLr;
      assert v.lrOn[a] == v.configs[a].runLr;
      assert w.configs[last].runLr == w.configs[last].runLr[..7] + [w.configs[last].runLr[7]];
      assert v.configs[a].runLr == v.configs[a].runLr[..7] + [v.configs[a].runLr[7]];
    }
  }

  /** Any two ASICs whose Top registers differ in byte 1: the script sends ASIC 0 an "LR
      on" image that is not the one built from its own register at the new phase. */
  lemma AsWrittenMisaddressesAsicZero(top0: seq<Byte>, top1: seq<Byte>, phase0: int, phase: int)
    requires |top0| >= 8 && |top1| >= 8 && top0[1] != top1[1]
    ensures
      var configs := [BuildAsicImages(top0, phase0).value, BuildAsicImages(top1, phase0).value];
      PhaseStepAsWritten(configs, phase).lrOn[0] != RunLrImage(top0, phase).value
  {
    var configs := [BuildAsicImages(top0, phase0).value, BuildAsicImages(top1, phase0).value];
    var w := PhaseStepAsWritten(configs, phase);
    assert configs[1].runLr[1] == top1[1];
    assert w.configs[1].runLr[..7] == configs[1].runLr[..7];
    assert w.lrOn[0][1] == w.configs[1].runLr[..7][1];
    assert RunLrImage(top0, phase).value[1] == top0[1];
  }
}
