# EEEMCal analysis scripts: a verified model of their pure logic

This project models the deterministic core of the EEEMCal prototype analysis scripts. It has three parts.

**Internal-injection DAQ script** (`009_IntInjection_2V5.py`). Modelled: the `--i2c` argument check, the choice of clock phase from the pedestal-calibration files, and the two 8-byte Top register images ("LR on" and "LR off") with the phase nibble in byte 7. Also modelled: the fixed byte overrides of the Global_Analog and Digital_Half payloads, the normalisation of register names before the I2C address lookup, and one configuration write per register. The phase scan is modelled too: the offset phase, the time of each sample, the decoding of a time back to its phase, and which channels and samples are recorded into the seven parallel series.

**DESY beam-test centre finder** (`find_center.py`). Modelled: the crystal-to-readout-channel tables, `crystal_channels`, the run selection of `extract_center`, and the run file name.

**LED histogram scripts.** Modelled: the shared helpers (`read_binned_hist_csv`, the edges, contents and errors of `make_th1_from_centers_counts`, `parse_voltage`, the file filter and the zero-guarded ratios). Also modelled, once per script: the resolution-versus-voltage scans of the LED and oscilloscope analyses (moment resolution, Gaussian-fit resolution with its fallback, and the amplitude window), and the per-voltage histogram scripts.

Arithmetic is exact: `real` for the Python floats, `bv8` for register bytes, unbounded `int` for Python integers. Everything the scripts obtain from outside becomes an input:
- file contents;
- directory listings;
- the JSON register settings;
- ROOT's histogram moments and fit results;
- the DAQ library's injection results.

The square root is a function parameter `sqrt` with `HistModel.IsSqrt(sqrt)` as precondition: it is non-negative and squares back to its argument on non-negative inputs.

Modules:
- `Wrappers`: `Option` and `Result`.
- `Text`: the subset of Python's `str` used.
- `Sorting`: `sorted` as a stable sort.
- `InjectionArgs`, `InjectionRegisters` and `PhaseScan`: the DAQ script.
- `CrystalMapping` and `CenterScan`: the centre finder.
- `HistModel`: the shared histogram helpers.
- `LedResolution`, `ScopeResolution`, `AreaHists` and `MomentHists`: one per LED script, or per pair of near-identical scripts.

## Model

| member | source | states |
|---|---|---|
| InjectionArgs.SelectI2cFiles | 009_IntInjection_2V5.py:53-85 | No argument gives the single default file. A comma-separated argument is accepted exactly when it splits into two `.json` names, and the two names join back to the argument. A single name is accepted exactly when it exists and ends in `.json`. Each failure carries its own reason. |
| InjectionArgs.SelectedFilesAreJson | 009_IntInjection_2V5.py:65-85 | Every accepted list has one or two entries, each ending in `.json`. |
| InjectionArgs.ConsensusPhase | 009_IntInjection_2V5.py:269-275 | The phase is the collected one when all collected phases agree and there is at least one; otherwise it is the default. |
| InjectionArgs.SingletonSetIffUnanimous | 009_IntInjection_2V5.py:269 | The set of collected phases has exactly one element if and only if the list is non-empty and unanimous. |
| InjectionRegisters.PhaseNibble | 009_IntInjection_2V5.py:314 | `phase & 0x0F` is at most 15 and equals the phase for phases 0..15. |
| InjectionRegisters.PhaseNibbleIsMask | 009_IntInjection_2V5.py:314 | For a phase that fits in a byte, the nibble is the bitwise and of that byte with 0x0F. |
| InjectionRegisters.RunLrImage | 009_IntInjection_2V5.py:311-314 | The "LR on" image exists exactly when the Top register has at least 8 bytes; it then has 8 bytes, byte 0 has both LR bits set and its upper six bits unchanged, bytes 1-6 are copied and byte 7 is the phase nibble. |
| InjectionRegisters.OffLrImage | 009_IntInjection_2V5.py:316-319 | The same for the "LR off" image, with both LR bits of byte 0 cleared. |
| InjectionRegisters.LrImagesDifferOnlyInLrBits | 009_IntInjection_2V5.py:311-319 | The two images agree from byte 1 on; byte 0 of either is byte 0 of the other with the LR bits set or cleared. |
| InjectionRegisters.SetPhaseRebuilds | 009_IntInjection_2V5.py:441-442 | Rewriting byte 7 with a new phase gives exactly the images built with that phase in the first place. |
| InjectionRegisters.GlobalAnalogOverride | 009_IntInjection_2V5.py:390-396 | It fails exactly on payloads shorter than 15 bytes. Otherwise the length is kept, bytes 8, 9, 10 and 14 become 0xA0, 0xCA, 0x42 and 0x6F, and every other byte is unchanged. |
| InjectionRegisters.DigitalHalfOverride | 009_IntInjection_2V5.py:403-407 | It fails exactly on payloads shorter than 26 bytes. Otherwise bytes 4 and 25 become 0xC0 and 0x02 and every other byte is unchanged. |
| InjectionRegisters.OverridesIdempotent | 009_IntInjection_2V5.py:393-407 | Applying either override to its own result changes nothing. |
| InjectionRegisters.RemoveSpaces | 009_IntInjection_2V5.py:380 | The result has no space, is shorter by the number of spaces, and keeps the count of every other character. |
| InjectionRegisters.RemoveSpacesNoop | 009_IntInjection_2V5.py:380 | A name without spaces is left unchanged, so removing spaces is idempotent. |
| InjectionRegisters.RemoveSpacesAppend | 009_IntInjection_2V5.py:380 | Removing spaces works piecewise: removing them from a concatenation removes them from each part. |
| InjectionRegisters.UnpadPad | 009_IntInjection_2V5.py:383 | Dropping the character after each underscore undoes the `"_" -> "_0"` replacement. |
| InjectionRegisters.NormaliseChannelWiseKey | 009_IntInjection_2V5.py:380-383 | A normalised name has no space. A name without "Channel_" only loses its spaces. For a "Channel_" key, the space-free key has at least two `_`-separated fields. The call fails, with the `int()` error, exactly when the second field is not an integer. On success the name is the space-free key with a '0' after each underscore exactly when that integer is below 10, and the space-free key itself otherwise. |
| InjectionRegisters.ChannelKeyDigits | 009_IntInjection_2V5.py:380-383 | "Channel_" plus digits plus trailing blanks is looked up as "Channel_0" plus the digits when their value is below 10, and as "Channel_" plus the digits otherwise. |
| InjectionRegisters.ChannelKeyPadding | 009_IntInjection_2V5.py:380-383 | "Channel_N" with trailing blanks is looked up as "Channel_0N" for N < 10 and as "Channel_N" otherwise. |
| InjectionRegisters.PrepareWrite | 009_IntInjection_2V5.py:376-412 | Only the three register families are written; any other key gives no write and no error. A channel-wise register goes to the given ASIC with its payload unchanged, at the address of its normalised name. It succeeds exactly when the name normalises and has an address; otherwise it raises the normalisation error or KeyError. A Global_Analog or Digital_Half register goes with its overridden payload, at the address of its space-free name. It succeeds exactly when the payload is long enough and the name has an address; otherwise it raises IndexError or KeyError. |
| InjectionRegisters.ChannelWriteAddress | 009_IntInjection_2V5.py:376-386 | A `Channel_N` register with any trailing blanks is written, payload unchanged, at the address of "Channel_0N" for N < 10 and of "Channel_N" otherwise. It raises KeyError exactly when that name has no address. |
| InjectionRegisters.WrittenSettings | 009_IntInjection_2V5.py:375-376 | The settings the loop writes are exactly those whose key names one of the three written families, and there are no more of them than settings. |
| InjectionRegisters.AsicWrites | 009_IntInjection_2V5.py:374-412 | The pass over one ASIC succeeds exactly when every setting's write can be prepared. It then makes one write per written setting, in settings-file order, and each is the write `PrepareWrite` gives for that setting. |
| InjectionRegisters.WritesAreForAsic | 009_IntInjection_2V5.py:374-412 | Every write of a successful pass is addressed to the ASIC being configured. |
| InjectionRegisters.AsicWritesFirstError | 009_IntInjection_2V5.py:374-412 | A failing pass raises the error of the first setting whose write cannot be prepared, and every setting before that one can be prepared. |
| InjectionRegisters.PhaseStepAsWritten | 009_IntInjection_2V5.py:438-459 | After the phase rewrite, every ASIC is sent the last ASIC's "LR on" image and its own "LR off" image. |
| InjectionRegisters.PhaseStep | 009_IntInjection_2V5.py:438-459 | Corrected step: every ASIC is sent its own rewritten "LR on" and "LR off" images. |
| InjectionRegisters.PhaseStepSwitchesOwnAsic | 009_IntInjection_2V5.py:304-319 | With the corrected step, each ASIC receives exactly the two images built from its own Top register at the new phase. |
| InjectionRegisters.AsWrittenAgreesIff | 009_IntInjection_2V5.py:451 | The script's "LR on" write to ASIC `a` equals the corrected one if and only if the first seven bytes of its image equal the last ASIC's. |
| InjectionRegisters.AsWrittenMisaddressesAsicZero | 009_IntInjection_2V5.py:451 | For any two ASICs whose Top registers have at least 8 bytes and differ in byte 1, and any phases, the script sends ASIC 0 an "LR on" image that is not the one built from its own register at the new phase. |
| PhaseScan.OffsetPhase | 009_IntInjection_2V5.py:475-477 | For a phase in 0..15 the offset phase is (phase - 7) mod 16 and lies in 0..15. |
| PhaseScan.SampleTime | 009_IntInjection_2V5.py:482 | For a phase in 0..15, the time of sample `k` lies in the `k`-th 25 ns interval. |
| PhaseScan.DecodePhase | 009_IntInjection_2V5.py:539 | The phase written to the CSV always lies in 0..15. |
| PhaseScan.DecodeSampleTime | 009_IntInjection_2V5.py:475-482 | Decoding a sample time gives back both the phase setting and the sample index it was built from. |
| PhaseScan.SampleTimeInjective | 009_IntInjection_2V5.py:482 | Different (phase, sample) pairs are placed at different times. |
| PhaseScan.ChannelIndex | 009_IntInjection_2V5.py:463 | `asic * 76 + c` gives back the ASIC and the channel by division and remainder, and stays below 76 times the ASIC count. |
| PhaseScan.CandidatesOrdered | 009_IntInjection_2V5.py:461-463 | The nested loop over ASICs and their first 18 channels visits channel numbers in strictly ascending order, each among the first 18 of its ASIC. |
| PhaseScan.WithoutOrdered | 009_IntInjection_2V5.py:464-467 | Skipping the unused and dead channels keeps the remaining channels in ascending order. |
| PhaseScan.ScannedChannels | 009_IntInjection_2V5.py:461-467 | The scanned channels are exactly channels 0..17 of each ASIC that are neither unused nor dead. Each one is below 152, is not skipped and is among the first 18 of its ASIC. Every such channel is listed, once, and the list ascends, which is the order of the nested loops. |
| PhaseScan.NonZero | 009_IntInjection_2V5.py:479-481 | The kept samples are exactly those with a non-zero ADC value, listed in ascending order. |
| PhaseScan.Extend | 009_IntInjection_2V5.py:482-488 | Appending the samples at the given indices extends the seven series with exactly what the script appends. The times are those of the samples at that phase; the ADC, ADC error, TOT, TOT error, ToA and ToA error entries are the samples' values at those indices. All are in index order, after the old entries. |
| PhaseScan.Pick | 009_IntInjection_2V5.py:468-488 | The picked entries are, one for one and in order, the list's entries at the given indices. |
| PhaseScan.Times | 009_IntInjection_2V5.py:482 | The appended times are, one for one and in order, the sample times of the given indices at the phase. |
| PhaseScan.ExtendLockStep | 009_IntInjection_2V5.py:482-488 | Appending keeps the seven series of a channel in lock-step. |
| PhaseScan.ExtendNonZero | 009_IntInjection_2V5.py:479-483 | Appending samples whose ADC values are non-zero appends only non-zero ADC values. |
| PhaseScan.AppendChannel | 009_IntInjection_2V5.py:479-488 | The script's per-sample loop succeeds exactly when every kept sample has an entry in each of the other six lists, and then appends exactly the kept samples in order. |
| PhaseScan.KeptPastEnd | 009_IntInjection_2V5.py:479-488 | A non-zero sample beyond the end of another list makes the channel fail. |
| PhaseScan.AppendedAdcs | 009_IntInjection_2V5.py:479-483 | An accepted channel grows by one entry per non-zero sample, and every appended ADC value is non-zero. |
| PhaseScan.AppendedTimes | 009_IntInjection_2V5.py:482 | Every time an accepted channel appends decodes back to the phase it was taken at. |
| PhaseScan.ExtendTimesDecode | 009_IntInjection_2V5.py:482 | Every time appended for samples taken at a phase in 0..15 decodes back to that phase. |
| PhaseScan.ScanChannels | 009_IntInjection_2V5.py:461-488 | A channel loop fails exactly when one of its channels has no injection results, or keeps a sample past the end of one of the other lists. A loop that succeeds keeps all 152 series. |
| PhaseScan.ScanChannelsUntouched | 009_IntInjection_2V5.py:461-488 | Channels outside the visited list are left untouched. |
| PhaseScan.ScanChannelsLockStep | 009_IntInjection_2V5.py:430-488 | The channel loop keeps every channel's seven series in lock-step. |
| PhaseScan.ScanChannelsVisited | 009_IntInjection_2V5.py:461-488 | When the channels are listed once each in ascending order, a successful loop leaves each listed channel with the result of its own channel step on its own injection results. |
| PhaseScan.ScanPhase | 009_IntInjection_2V5.py:461-488 | One phase step fails exactly when a scanned channel fails. Otherwise each scanned channel holds the result of its own channel step on its own injection results. Every other channel is left as it was, including the skipped ones and channels 18..75 of every ASIC. Every series stays in lock-step. |
| PhaseScan.ScanAll | 009_IntInjection_2V5.py:430-488 | The whole scan keeps the 152 series in lock-step. |
| PhaseScan.ScanAllPerChannel | 009_IntInjection_2V5.py:438-488 | The channels do not interact. After a successful scan, each scanned channel holds what its own history of channel steps over all phase settings gives, and every other channel is as it started. |
| PhaseScan.ScanAllSucceeds | 009_IntInjection_2V5.py:438-488 | The scan succeeds exactly when there are injection results for every phase setting and no scanned channel's history fails. |
| PhaseScan.ExtendDecodes | 009_IntInjection_2V5.py:482 | Appending samples taken at a phase keeps every time of the series decoding to an allowed phase, provided that phase is allowed. |
| PhaseScan.ScanAllDecodes | 009_IntInjection_2V5.py:438-488 | When every phase setting is allowed and the series start with only allowed phases, every time the whole scan records decodes to an allowed phase. |
| PhaseScan.ScanRecordsOnlyScannedPhases | 009_IntInjection_2V5.py:430-539 | Starting from the 152 empty series, every recorded time decodes to one of the scanned phase settings, so the CSV's phase column names only scanned phases. |
| CrystalMapping.PortOffsets | DESY_beam_test_analysis/DESY_crystal_center_positions/find_center.py:75-80 | Every port map lists 16 offsets. |
| CrystalMapping.PortOffsetsInRange | DESY_beam_test_analysis/DESY_crystal_center_positions/find_center.py:75-80 | Each offset lies in its port's range (a 0-16, b 18-34, d 36-52, c 54-70) and below 72. |
| CrystalMapping.PortRangesDisjoint | DESY_beam_test_analysis/DESY_crystal_center_positions/find_center.py:75-80 | The ranges of different ports do not overlap. |
| CrystalMapping.PortOffsetsDistinct | DESY_beam_test_analysis/DESY_crystal_center_positions/find_center.py:75-80 | The 16 offsets of a port are pairwise distinct. |
| CrystalMapping.CrystalMapInjective | DESY_beam_test_analysis/DESY_crystal_center_positions/find_center.py:45-71 | Crystals 0-24 have pairwise distinct (FPGA, ASIC, port) slots. |
| CrystalMapping.FpgaIndexInjective | DESY_beam_test_analysis/DESY_crystal_center_positions/find_center.py:73 | The FPGA index gives different FPGAs different indices, all below 4. |
| CrystalMapping.Base | DESY_beam_test_analysis/DESY_crystal_center_positions/find_center.py:117 | The base of a crystal's block is a multiple of 72, numbers the block `2 * fpga_index + asic`, and leaves room for 72 channels below 576. |
| CrystalMapping.CrystalChannels | DESY_beam_test_analysis/DESY_crystal_center_positions/find_center.py:115-118 | A known crystal (and only a known one) gets 16 pairwise distinct channels, each within its block of 72 above the base, hence below 576. |
| CrystalMapping.CrystalsDisjoint | DESY_beam_test_analysis/DESY_crystal_center_positions/find_center.py:45-80 | Different crystals are read out on disjoint sets of channels. |
| CenterScan.QualifyingRuns | DESY_beam_test_analysis/DESY_crystal_center_positions/find_center.py:193 | The runs used are exactly those present in both tables. |
| CenterScan.ExtractCenter | DESY_beam_test_analysis/DESY_crystal_center_positions/find_center.py:192-201 | It fails with the count exactly when fewer than 3 runs qualify. Otherwise the runs are exactly the qualifying ones, in strictly ascending order, and x, y, ex and ey have one entry per run, with ex all zeros. |
| CenterScan.ExtractCenterPoints | DESY_beam_test_analysis/DESY_crystal_center_positions/find_center.py:193-201 | Every qualifying run appears at exactly one point, which carries that run's position and peak. |
| CenterScan.ExtractCenterIgnoresUnpaired | DESY_beam_test_analysis/DESY_crystal_center_positions/find_center.py:193 | Adding a position for a run with no peak changes nothing. |
| CenterScan.Format03 | DESY_beam_test_analysis/DESY_crystal_center_positions/find_center.py:128 | `f"{n:03d}"` has at least three characters (exactly three digits for 0..999) and reads back as `n`. |
| CenterScan.ZeroPadWidth | DESY_beam_test_analysis/DESY_crystal_center_positions/find_center.py:128 | Padding to a positive width gives exactly that many characters if and only if the number is below 10 to that width. |
| CenterScan.DigitsLength | DESY_beam_test_analysis/DESY_crystal_center_positions/find_center.py:128 | A number has at most k decimal digits exactly when it is below 10^k. |
| CenterScan.RunPath | DESY_beam_test_analysis/DESY_crystal_center_positions/find_center.py:128 | The data file of a run is `beam/Run` + the padded number + `.root`. |
| CenterScan.RunPathRoundTrip | DESY_beam_test_analysis/DESY_crystal_center_positions/find_center.py:128 | The run number is recovered from its file path, so distinct runs read distinct files. |
| Sorting.SortBy | Test_LED_Analysis/plot_resolution_vs_voltage.py:145 | `sorted` returns a permutation of its input, in ascending order of the key. |
| Sorting.SortByStable | Test_LED_Analysis/plot_resolution_vs_voltage.py:145 | Elements with equal keys keep their original relative order. |
| Sorting.SortBySorted | Test_LED_Analysis/plot_resolution_vs_voltage.py:145 | An already sorted list is returned unchanged. |
| Sorting.SortedElements | DESY_beam_test_analysis/DESY_crystal_center_positions/find_center.py:193 | The sorted run numbers hold every element of the set once, in strictly ascending order. |
| HistModel.ReadRows | Test_LED_Analysis/plot_resolution_vs_voltage.py:29-40 | The columns have equal length, at most one entry per row, and each pair is the two leading cells of a row whose first two cells are numeric and not NaN. |
| HistModel.ReadRowsAppend | Test_LED_Analysis/plot_resolution_vs_voltage.py:29-40 | Row filtering works row by row: reading two blocks reads each in turn. |
| HistModel.ReadRowsSingle | Test_LED_Analysis/plot_resolution_vs_voltage.py:29-40 | A single row gives one (x, y) pair, its two leading numbers, when it is accepted, and nothing otherwise. |
| HistModel.ReadBinnedHistCsv | Test_LED_Analysis/plot_resolution_vs_voltage.py:23-41 | The first row is discarded whatever it holds, and the rest are filtered. |
| HistModel.ReadBinnedHistCsvLoop | Test_LED_oscilloscope_Analysis/plot_resolution_vs_voltage.py:36-54 | The scripts' reading loop computes exactly `ReadBinnedHistCsv`. The same loop is inlined at Res_area lines 26-44, Res_amplitude lines 50-65 and plot_hist_area lines 42-58. |
| HistModel.BinEdges | Test_LED_Analysis/plot_resolution_vs_voltage.py:43-52 | There are no edges for fewer than two centres, and otherwise n+1 edges. Each inner centre lies midway between its two edges, and the outer edges are extrapolated by half the neighbouring spacing. |
| HistModel.BinEdgesLoop | Test_LED_Analysis/Res_amplitude/plot_all_amplitude_hists.py:74-78 | The scripts' edge loop computes exactly `BinEdges`. |
| HistModel.EdgesBracketCentres | Test_LED_Analysis/plot_resolution_vs_voltage.py:48-52 | For strictly increasing centres the edges increase strictly and each centre lies strictly inside its bin. |
| HistModel.UniformCentresRecovered | Test_LED_Analysis/plot_resolution_vs_voltage.py:48-52 | For evenly spaced centres, the bin centres of the built histogram are the input centres. |
| HistModel.BinError | Test_LED_Analysis/plot_resolution_vs_voltage.py:61 | A bin's error is non-negative, 0 for a negative count, and squares to the count otherwise. |
| HistModel.BinErrors | Test_LED_Analysis/Res_amplitude/plot_all_amplitude_hists.py:92-94 | Each bin's error is non-negative, and 0 where the count is negative. |
| HistModel.MakeHist | Test_LED_Analysis/Res_area/plot_hist_area.py:46-68 | There is no histogram exactly when there are fewer than two centres. Otherwise its edges are those of the centres, bin i+1 holds count y[i], and each error is the error of that count. |
| HistModel.FillHist | Test_LED_Analysis/plot_hist_area.py:67-87 | The scripts' edge and fill loops compute `MakeHist`: bin i+1 holds count y[i] with a non-negative error that squares to the count when the count is not negative. |
| HistModel.MaximumBin | Test_LED_oscilloscope_Analysis/plot_resolution_vs_voltage.py:249 | `GetMaximumBin` is the first bin holding the largest content. |
| HistModel.FindBin | Test_LED_oscilloscope_Analysis/plot_resolution_vs_voltage.py:254-255 | For strictly increasing edges, the bin of a value is the number of edges at or below it: 0 is underflow and n+1 is overflow. |
| HistModel.FindBinMonotone | Test_LED_oscilloscope_Analysis/plot_resolution_vs_voltage.py:254-255 | A larger value never lands in a lower bin, so the window's bin range is ordered like its edges. |
| HistModel.RatioError | Test_LED_Analysis/plot_resolution_vs_voltage.py:130-131 | `abs(res) * sqrt(rel2)` is non-negative and squares to `res^2 * rel2`. |
| HistModel.ParseVoltage | Test_LED_Analysis/plot_resolution_vs_voltage.py:64-73 | There is a voltage exactly when the name contains digit, 'V', digit somewhere. It is then the value of "whole.frac" read at the leftmost such match, and it is not negative. |
| HistModel.SearchFromLeftmost | Test_LED_Analysis/plot_resolution_vs_voltage.py:66-73 | A successful search returns the match at the leftmost matching position at or after its start. |
| HistModel.SearchFromNone | Test_LED_Analysis/plot_resolution_vs_voltage.py:66-73 | A search that finds nothing means no position at or after its start matches. |
| HistModel.ParseVoltageOfName | Test_LED_Analysis/Res_area/plot_hist_area.py:18-24 | In a name made of digit-free text, digits, 'V', digits and a non-digit, the voltage is the value of "whole.frac" of the leftmost match. |
| HistModel.ParseVoltageExample | Test_LED_Analysis/Res_area/plot_hist_area.py:19 | 'hist_area_1V33.csv' reads as 1.33 V. |
| HistModel.RatioOrZero | Test_LED_Analysis/Res_amplitude/plot_all_amplitude_hists.py:110 | `num / den if den != 0 else 0.0`: 0 for a zero denominator, and otherwise a value that times the denominator gives the numerator. |
| HistModel.SelectFiles | Test_LED_Analysis/plot_resolution_vs_voltage.py:85 | The files used are exactly the entries with the prefix and the `.csv` suffix, each once, in name order. |
| HistModel.Process | Test_LED_Analysis/plot_resolution_vs_voltage.py:94-138 | The per-file loop keeps exactly the results of the files it does not skip. |
| HistModel.ProcessConcat | Test_LED_Analysis/plot_resolution_vs_voltage.py:94-138 | Processing two runs of files one after the other gives the results of each in turn. |
| HistModel.ProcessSnoc | Test_LED_Analysis/plot_resolution_vs_voltage.py:94-138 | One more file appends its result, if any, to the results so far. |
| HistModel.ProcessPermutation | Test_LED_Analysis/plot_resolution_vs_voltage.py:85-138 | The per-file loop's results depend only on which files it gets and how often, not on their order: permuting the files permutes the results. |
| HistModel.SortByVoltage | Test_LED_Analysis/plot_resolution_vs_voltage.py:145 | The points are permuted into ascending voltage order. The sort is stable, as Python's `sorted` is: for every voltage, the points with that voltage keep their input order. |
| HistModel.ZipUnzip | Test_LED_Analysis/plot_resolution_vs_voltage.py:145-148 | Splitting the points into four lists and zipping them again gives the points back. |
| HistModel.ResolutionCurve | Test_LED_Analysis/plot_resolution_vs_voltage.py:85-148 | The scan fails with "no files" exactly when no file matches, and with "no valid points" exactly when files match but none gives a point. Otherwise the four lists have equal length and are sorted by voltage. They hold each usable file's point exactly once: as a multiset, the points are those the per-file loop gives for the matching files. Points with equal voltage appear in file-name order, the order the loop visits the sorted file list. |
| LedResolution.RatioPoint | Test_LED_Analysis/plot_resolution_vs_voltage.py:125-138 | The point has the file's voltage, voltage error 0 and resolution 100·rms/mean. Its resolution error is 0 when rms ≤ 0, and otherwise is the non-negative propagated error in percent. |
| LedResolution.LedPoint | Test_LED_Analysis/plot_resolution_vs_voltage.py:94-138 | A file gives a point exactly when its name has a voltage, it has at least two rows, and its mean is a non-zero number and its RMS a number. |
| LedResolution.ComputeResolutionPoints | Test_LED_Analysis/plot_resolution_vs_voltage.py:78-149 | `compute_resolution_points` fails exactly when no file matches or no file gives a point. Otherwise the result is sorted by voltage, and as a multiset it holds exactly one `LedPoint` per matching file that gives one. Points with equal voltage keep file-name order. |
| LedResolution.CurvePointsFromFiles | Test_LED_Analysis/plot_resolution_vs_voltage.py:125-148 | Every point of the curve comes from a matching usable file: that file's voltage, 100·rms/mean of that file, voltage error 0 and a non-negative resolution error. |
| ScopeResolution.SpreadExpands | Test_LED_oscilloscope_Analysis/plot_resolution_vs_voltage.py:79-87 | The weighted spread about any m equals Σwx² − 2mΣwx + m²Σw, written with the three running sums. |
| ScopeResolution.SpreadNonNegative | Test_LED_oscilloscope_Analysis/plot_resolution_vs_voltage.py:82-87 | With non-negative counts the weighted spread is not negative. |
| ScopeResolution.MomentsOf | Test_LED_oscilloscope_Analysis/plot_resolution_vs_voltage.py:88-93 | A window with total weight ≤ 0 gives (0, 0, 0). Otherwise the mean times the weight is Σwx, N is the weight, and the RMS is not negative. |
| ScopeResolution.RmsIsWeightedSpread | Test_LED_oscilloscope_Analysis/plot_resolution_vs_voltage.py:77-93 | With non-negative counts and positive weight, RMS² times N is the weighted spread about the mean: the one-pass formula gives the weighted variance, and clamping at zero never triggers on a positive variance. |
| ScopeResolution.ReportFit | Test_LED_oscilloscope_Analysis/plot_resolution_vs_voltage.py:109-121 | A failed fit reports only its status; a converged fit reports the mean and sigma with their errors. |
| ScopeResolution.ResAndErr | Test_LED_oscilloscope_Analysis/plot_resolution_vs_voltage.py:123-133 | It gives (0, 0) when mu is 0 or missing or sigma is missing. Otherwise R = sigma/mu. The error is never negative, is 0 when sigma is 0 or an error is missing, and otherwise is the propagated error. |
| ScopeResolution.FallbackErrors | Test_LED_oscilloscope_Analysis/plot_resolution_vs_voltage.py:197-198 | Both estimates are 0 when N ≤ 0. Otherwise they are the standard errors sig/√N and sig/√(2N). |
| ScopeResolution.Fallback | Test_LED_oscilloscope_Analysis/plot_resolution_vs_voltage.py:192-199 | The fallback resolution is sig/mu, or 0 for a zero mean. Its error is never negative, is 0 when N ≤ 0 or sig is 0, and otherwise is the error propagated from the standard errors. |
| ScopeResolution.InitialSigmaArea | Test_LED_oscilloscope_Analysis/plot_resolution_vs_voltage.py:179 | The starting width of the area fit is always positive. It is the RMS when the RMS is positive; otherwise it is 0.1 times the absolute mean, or 1 for a zero mean. |
| ScopeResolution.InitialSigmaWindow | Test_LED_oscilloscope_Analysis/plot_resolution_vs_voltage.py:264 | The starting width of the window fit is not negative, and is 0 exactly when the RMS ≤ 0 and the peak is 0. It is the RMS when that is positive, and 0.02 times the absolute peak otherwise. |
| ScopeResolution.IntegralIsFullWindow | Test_LED_oscilloscope_Analysis/plot_resolution_vs_voltage.py:193 | `Integral()` is the weight of the window spanning every bin. |
| ScopeResolution.AreaResolution | Test_LED_oscilloscope_Analysis/plot_resolution_vs_voltage.py:188-199 | When the fit converged with a non-zero mean, the resolution is sigma/mu of the fit with the propagated error. Otherwise it is the moment fallback with N = Integral(). The error is never negative. |
| ScopeResolution.AreaPoint | Test_LED_oscilloscope_Analysis/plot_resolution_vs_voltage.py:150-205 | An area file gives a point exactly when its name has a voltage and it has two rows. The point is that voltage with the resolution and error in percent. |
| ScopeResolution.PercentPoint | Test_LED_oscilloscope_Analysis/plot_resolution_vs_voltage.py:202-205 | The point carries the voltage, zero voltage error, and 100 times the resolution and its error. |
| ScopeResolution.ComputeAreaPoints | Test_LED_oscilloscope_Analysis/plot_resolution_vs_voltage.py:138-214 | `compute_resolution_points_area` fails exactly when no file matches or none gives a point. Otherwise the result is sorted by voltage, and as a multiset it holds exactly one `AreaPoint` per matching file that gives one. Points with equal voltage keep file-name order. |
| ScopeResolution.Window | Test_LED_oscilloscope_Analysis/plot_resolution_vs_voltage.py:249-255 | The peak bin is the first bin holding the largest content, as `GetMaximumBin` returns it, and the peak is that bin's centre. The window's bounds are the bins `FindBin` gives for 0.8 and 1.2 times the peak. |
| ScopeResolution.PeakInWindow | Test_LED_oscilloscope_Analysis/plot_resolution_vs_voltage.py:249-255 | For increasing edges and a positive peak, the window contains the peak bin. |
| ScopeResolution.NegativePeakWindow | Test_LED_oscilloscope_Analysis/plot_resolution_vs_voltage.py:251-255 | For a negative peak the window's bounds come out reversed, so its bin range is empty or a single bin. |
| ScopeResolution.WindowResolution | Test_LED_oscilloscope_Analysis/plot_resolution_vs_voltage.py:273-283 | A converged fit gives sigma/mu, or 0 for a zero mean. Its error is 0 when sigma is 0, and otherwise, for a non-zero mean, the error propagated from the fit errors. A failed fit falls back on the window moments with N = window weight. The error is never negative. |
| ScopeResolution.WindowPoint | Test_LED_oscilloscope_Analysis/plot_resolution_vs_voltage.py:229-293 | An amplitude file gives a point exactly when its name has a voltage, it has two rows, and its window has positive weight and a non-zero mean. |
| ScopeResolution.ComputeWindowPoints | Test_LED_oscilloscope_Analysis/plot_resolution_vs_voltage.py:216-298 | `compute_resolution_points_amp_gaus_window` fails exactly when no file matches or none gives a point. Otherwise the result is sorted by voltage, and as a multiset it holds exactly one `WindowPoint` per matching file that gives one. |
| ScopeResolution.ComputeWindowPointsStable | Test_LED_oscilloscope_Analysis/plot_resolution_vs_voltage.py:216-298 | The sort of the window scan's points is stable: points with equal voltage keep file-name order, the order the loop visits the sorted file list. |
| AreaHists.ChooseFit | Test_LED_Analysis/Res_area/plot_hist_area.py:130-140 | The fit counts as converged exactly when the status is 0. If so, its mean and sigma are used; otherwise the histogram's mean and RMS are. The resolution is their ratio, or 0 for a zero mean. |
| AreaHists.FailedFitGivesMomentResolution | Test_LED_Analysis/Res_area/plot_hist_area.py:109-140 | When the fit fails, the fit resolution equals the RMS/mean resolution. |
| AreaHists.InitialSigmaAsWritten | Test_LED_Analysis/Res_area/plot_hist_area.py:126 | `sigma0` as written: the RMS if positive, else 0.1 times the mean for a non-zero mean, else 1. It is ≤ 0 exactly when the RMS ≤ 0 and the mean is negative. |
| AreaHists.AsWrittenSigmaCanBeNegative | Test_LED_Analysis/Res_area/plot_hist_area.py:126 | With RMS 0 and mean −1, the starting width as written is negative, while the corrected one is positive. |
| AreaHists.AsWrittenAgreesForNonNegativeMean | Test_LED_Analysis/Res_area/plot_hist_area.py:126 | For a mean that is not negative, the written and corrected starting widths agree. |
| AreaHists.Summarise | Test_LED_Analysis/Res_area/plot_hist_area.py:78-140 | A file is skipped exactly when it has fewer than two rows, even when its voltage is unknown. Otherwise its summary has the parsed voltage, the histogram, the RMS/mean resolution and the chosen fit. Its starting width is the RMS when that is positive; otherwise it is the corrected positive width of the Findings row, not line 126 as written. |
| AreaHists.AreaScan | Test_LED_Analysis/Res_area/plot_hist_area.py:73-140 | It fails exactly when no `hist_area_*.csv` file exists. Otherwise it holds the summaries of the matching files that are not skipped, one per file, in file-name order. |
| AreaHists.SummariseFile | Test_LED_Analysis/Res_area/plot_hist_area.py:80-140 | The script's loop body, with its reading and filling loops, computes `Summarise`. |
| AreaHists.RunAreaScript | Test_LED_Analysis/Res_area/plot_hist_area.py:73-140 | The script's file loop computes `AreaScan`. |
| MomentHists.Summarise | Test_LED_Analysis/Res_amplitude/plot_all_amplitude_hists.py:29-110 | A file is skipped exactly when it has fewer than two rows. Otherwise its summary has the parsed voltage (or none), the histogram and the RMS/mean resolution. |
| MomentHists.MomentScan | Test_LED_Analysis/Res_amplitude/plot_all_amplitude_hists.py:21-27 | It fails exactly when no file matches the prefix. Otherwise it holds the summaries of the matching files that are not skipped, one per file, in file-name order. |
| MomentHists.AnyPrefixMatchesEveryCsv | Test_LED_Analysis/plot_hist_area.py:18 | The filter with no prefix selects exactly the `.csv` files. |
| MomentHists.SummariseFile | Test_LED_Analysis/Res_amplitude/plot_all_amplitude_hists.py:29-110 | The inlined loop body, with its reading and filling loops, computes `Summarise`. |
| MomentHists.RunScan | Test_LED_Analysis/Res_amplitude/plot_all_amplitude_hists.py:21-110 | The amplitude script's file loop over `hist_amplitude_*.csv` computes `MomentScan`. |
| MomentHists.RunAllAreaScript | Test_LED_Analysis/plot_hist_area.py:18-102 | The area script processes every `.csv` file, and fails exactly when there is none. |

## Left out

- The UDP sockets, the socket-pool registration and every `packetlib`/`caliblib` call, including `send_check_i2c_wrapper`, `Inj_2V5` and `decompress_tot`. Their code is not part of this model. The injection results become inputs, and a register write is modelled as the value handed to the transport.
- JSON loading, `os.path.exists`, `os.listdir` and every file write. Directory listings, file contents and the set of existing paths are inputs.
- The parsing of hexadecimal register strings (`int(x, 16)`). Register payloads are given as bytes.
- The collection of phases from the pedestal-calibration files and of dead and unused channels. Both lists are inputs.
- ROOT internals: `GetMean`, `GetRMS` and their errors, `Integral`, the Gaussian and Crystal Ball fits, graphs and canvases. Moments and fit outcomes are inputs. `FindBin`, `GetMaximumBin` and the bin centre are modelled on the bins the scripts build.
- Floating point. Real arithmetic is exact, IEEE rounding and infinities are not modelled, and NaN only as far as a CSV cell or a moment is tested for it. The square root is a parameter.
- The `%.2f` labels and tags printed and used in ROOT object names, and all logging and plotting, including the page of eight channels.
- `Text.IsDigit` covers the ASCII digits only. Python's `\d` also matches other Unicode decimal digits.
- Text.ParseInt: accepts an optional sign and ASCII digits only. Python's `int()` also skips surrounding whitespace such as tabs and newlines (`int("5\t")` is 5) and allows `_` between digits. Channel keys have their spaces removed before the parse, so only keys with other whitespace in the index field differ.
- The final stage of the DAQ script: sorting each channel's series by time before writing, the pedestal subtraction and the CSV rows. Only the phase column's decoding is modelled, by `PhaseScan.DecodePhase`.
- PhaseScan.ScanAll: the series are stored per channel as in the script, but a channel index past the injection lists is an error value rather than an `IndexError` halfway through a phase. The script's six outer lists of one injection result, one per quantity and indexed by channel, are bundled here as one `Samples` value per channel. So outer lists of unequal length, which can raise an `IndexError` in the script, cannot be represented.
- The DESY `analyze_run` body after the histogram fill, which uses undefined names, and the module-level scan tables keyed by crystal. `CenterScan.ExtractCenter` takes a flat run-to-position map, as its own code expects.
- CrystalMapping.CrystalChannels: the FPGA names "208"-"211" are represented by the numbers 208-211.
- HistModel.FindBin: stated for strictly increasing edges only. ROOT's behaviour on non-increasing edges is not modelled, though monotonicity in the value is proved for any edges.
- HistModel.MaximumBin: models `GetMaximumBin` over the bins 1..n of the histograms built here, ignoring ROOT's maximum-bin settings.
- ScopeResolution.Fallback: the closed form of the propagated fallback error is stated through the standard errors it is built from, not simplified algebraically.
- ScopeResolution.WeightedMeanRms: carries no contract of its own. `ScopeResolution.MomentsOf` states the result on the window's sums, and `ScopeResolution.RmsIsWeightedSpread` relates it to the bins.
- `res_rms` of the oscilloscope area scan (line 177) is computed but never used, so it is not modelled.
- The resolution-versus-voltage plots and the per-voltage histogram drawing of every LED script.
- AreaHists.Summarise: when the RMS is not positive, the starting width `sigma0` is the corrected `0.1 * abs(mean)` (1 for a zero mean), not `0.1 * mean` as line 126 of `Test_LED_Analysis/Res_area/plot_hist_area.py` writes it. The two differ only for a negative mean, where the script's width is negative; `AreaHists.InitialSigmaAsWritten` models the line as written (see Findings).
- AreaHists.SummariseFile: computes `AreaHists.Summarise`, so it carries the same corrected starting width instead of line 126 as written.
- AreaHists.AreaScan: its summaries carry the corrected starting width of `AreaHists.Summarise`, not line 126 as written.
- AreaHists.RunAreaScript: computes `AreaHists.AreaScan`, so its summaries carry the corrected starting width, not line 126 as written.

## Findings

| source | as written | input that shows it | evidently intended | confidence | as-written member | corrected member |
|---|---|---|---|---|---|---|
| 009_IntInjection_2V5.py:451 | The "LR on" write sends `_asic_config["top_reg_runLR"]`, the variable left over from the configuration loop at line 375. So every ASIC gets the last ASIC's image. | Any two ASICs whose Top registers differ in byte 1: ASIC 0 is sent ASIC 1's byte 1. | `scan_config[_asic]["top_reg_runLR"]`, matching the "LR off" write at line 458. | high, not executed | InjectionRegisters.PhaseStepAsWritten, InjectionRegisters.AsWrittenMisaddressesAsicZero | InjectionRegisters.PhaseStep, InjectionRegisters.PhaseStepSwitchesOwnAsic |
| Test_LED_Analysis/Res_area/plot_hist_area.py:126 | `sigma0 = 0.1 * mean` without an absolute value, so a negative mean gives a negative starting width. | RMS 0 and mean −1: `sigma0` is −0.1. | `0.1 * abs(mean)`, as the oscilloscope script writes it, which is always positive. | low, not executed | AreaHists.InitialSigmaAsWritten, AreaHists.AsWrittenSigmaCanBeNegative | ScopeResolution.InitialSigmaArea |
