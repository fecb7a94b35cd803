/** Command-line handling of the internal-injection DAQ script (009_IntInjection_2V5.py):
    which I2C settings files are used, and which clock phase is taken from them. */
module InjectionArgs {
  import opened Wrappers
  import opened Text

  /** The file used when no `--i2c` argument is given (line 54). */
  const DefaultI2cFile: string := "config/default_2024Aug_config.json"

  /** The `--i2c` option: absent, or argparse's non-empty list (`nargs='+'`). Only the first
      element is looked at. */
  datatype I2cArgument = Absent | Given(first: string, rest: seq<string>)

  /** Reasons the script stops with `sys.exit(1)`. */
  datatype ArgError =
    | WrongFileCount   // "Invalid I2C settings file"
    | NotJson          // "I2C settings file must be in JSON format"
    | FileMissing      // "I2C settings file ... does not exist"

  predicate IsJsonName(name: string) {
    EndsWith(name, ".json")
  }

  /** Check every name of a comma-separated list in order; the first that is not a
      `.json` name stops the script (lines 70-74). */
  function CheckJsonNames(names: seq<string>): (r: Result<seq<string>, ArgError>)
    ensures r.Success? <==> forall k :: 0 <= k < |names| ==> IsJsonName(names[k])
    ensures r.Success? ==> r.value == names
    ensures r.Failure? ==> r.error == NotJson
  {
    if |names| == 0 then Success([])
    else if !IsJsonName(names[0]) then Failure(NotJson)
    else
      match CheckJsonNames(names[1..])
      case Failure(e) => Failure(e)
      case Success(rest) =>
        assert names == [names[0]] + names[1..];
        Success([names[0]] + rest)
  }

  /** The list of I2C settings files (lines 53-85). `existing` is the set of paths for
      which `os.path.exists` holds. */
  function SelectI2cFiles(arg: I2cArgument, existing: set<string>): (r: Result<seq<string>, ArgError>)
    ensures arg.Absent? ==> r == Success([DefaultI2cFile])
    ensures arg.Given? && ',' in arg.first ==>
              && (r.Success? <==>
                    && Count(arg.first, ',') == 1
                    && IsJsonName(Split(arg.first, ',')[0])
                    && IsJsonName(Split(arg.first, ',')[1]))
              && (r.Success? ==> |r.value| == 2 && Join(r.value, ',') == arg.first)
              && (Count(arg.first, ',') != 1 ==> r == Failure(WrongFileCount))
    ensures arg.Given? && ',' !in arg.first ==>
              && (r.Success? <==> arg.first in existing && IsJsonName(arg.first))
              && (r.Success? ==> r.value == [arg.first])
              && (arg.first !in existing ==> r == Failure(FileMissing))
  {
    match arg
    case Absent => Success([DefaultI2cFile])
    case Given(s, _) =>
      if ',' in s then
        var names := Split(s, ',');
        if |names| != 2 then Failure(WrongFileCount)
        else
          JoinSplit(s, ',');
          CheckJsonNames(names)
      else if s in existing then
        if !IsJsonName(s) then Failure(NotJson) else Success([s])
      else Failure(FileMissing)
  }

  /** Every accepted list names one or two files, each of them a `.json` name (or the
      default file). */
  lemma SelectedFilesAreJson(arg: I2cArgument, existing: set<string>)
    requires SelectI2cFiles(arg, existing).Success?
    ensures 1 <= |SelectI2cFiles(arg, existing).value| <= 2
    ensures forall k :: 0 <= k < |SelectI2cFiles(arg, existing).value| ==>
              IsJsonName(SelectI2cFiles(arg, existing).value[k])
  {
    var r := SelectI2cFiles(arg, existing).value;
    if arg.Absent? {
      assert DefaultI2cFile[|DefaultI2cFile| - 5..] == ".json";
    }
  }

  // ---------------------------------------------------------------------------
  // Phase consensus (lines 269-275)
  // ---------------------------------------------------------------------------

  /** All collected phases agree, and there is at least one. */
  predicate Unanimous(phases: seq<int>) {
    |phases| > 0 && forall i :: 0 <= i < |phases| ==> phases[i] == phases[0]
  }

  /** The phase setting used by the scan: the phase found in the pedestal-calibration
      files when the set of found phases has exactly one element, the default otherwise. */
  function ConsensusPhase(phases: seq<int>, default: int): (p: int)
    ensures Unanimous(phases) ==> p == phases[0]
    ensures !Unanimous(phases) ==> p == default
    ensures p == default || p in phases
  {
    SingletonSetIffUnanimous(phases);
    if |set x | x in phases| == 1 then phases[0] else default
  }

  /** A list's set of elements has exactly one element iff the list is non-empty and all
      its elements are equal. */
  lemma SingletonSetIffUnanimous(phases: seq<int>)
    ensures |set x | x in phases| == 1 <==> Unanimous(phases)
  {
    var s := set x | x in phases;
    if Unanimous(phases) {
      assert s == {phases[0]};
    } else if |phases| == 0 {
      assert s == {};
    } else {
      var i :| 0 <= i < |phases| && phases[i] != phases[0];
      assert {phases[0], phases[i]} <= s;
      assert |{phases[0], phases[i]}| == 2;
      SubsetCard({phases[0], phases[i]}, s);
    }
  }

  lemma SubsetCard(a: set<int>, b: set<int>)
    requires a <= b
    ensures |a| <= |b|
  {
    assert b == a + (b - a);
  }
}
