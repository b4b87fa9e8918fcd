/**
 * The `mergetiff` command: `mergetiff <OUT> <IN1> <BANDS1> [<IN2> <BANDS2> ...]`.
 * Opening a file is a lookup in `files`; `strSplit(spec, ",")` and
 * `std::stoi` are the parameters `split` and `stoi` (`None` where `stoi`
 * throws `std::invalid_argument`).
 */
module MergeTiffCli {
  import opened Wrappers
  import opened Errors
  import opened DatasetModel
  import opened DatasetManagement

  /** Why collecting the inputs stopped: a raised error, or undefined behaviour. */
  datatype Abort = Thrown(error: Error) | UndefinedAccess

  /** The opened datasets and the accumulated (possibly null) bands. */
  datatype Collected<T> = Collected(datasets: seq<Dataset<T>>, bands: seq<Option<Band<T>>>)

  /** How a run ends. */
  datatype CliOutcome<T> =
    | Usage                                        // usage text printed
    | Merged(outputFile: string, output: Dataset<T>)
    | Failed(error: Error)                         // "Error: ..." logged
    | UndefinedBehaviour                           // a null or missing band is dereferenced

  /** The argument count `main` accepts: output, then at least one (path, bands) pair. */
  predicate ArgcAccepted(argc: nat) {
    argc > 3 && argc % 2 == 0
  }

  const U32Limit: nat := 0x1_0000_0000

  /** The conversion of `stoi`'s `int` into a `vector<unsigned int>` element. */
  function ToUnsigned(i: int): (u: nat)
    ensures u < U32Limit
    ensures 0 <= i < U32Limit ==> u == i
    ensures -(U32Limit as int) <= i < 0 ==> u == i + U32Limit
  {
    i % U32Limit
  }

  /** `stoi` on every piece of a band specifier; `None` when any piece is not a number. */
  function ParseIndices(pieces: seq<string>, stoi: string -> Option<int>): (r: Option<seq<nat>>)
    ensures r.Some? ==> |r.value| == |pieces|
    decreases |pieces|
  {
    if pieces == [] then Some([])
    else
      match ParseIndices(pieces[..|pieces| - 1], stoi)
      case None => None
      case Some(prev) =>
        match stoi(pieces[|pieces| - 1])
        case None => None
        case Some(v) => Some(prev + [ToUnsigned(v)])
  }

  /**
   * One iteration of the input loop: open the path (always), then unless the
   * specifier is "-", parse it and append the selected bands.
   */
  function ProcessPair<T>(acc: Collected<T>, path: string, spec: string, files: map<string, Dataset<T>>,
                          split: string -> seq<string>, stoi: string -> Option<int>)
    : Result<Collected<T>, Abort>
  {
    if path !in files then Failure(Thrown(InputOpenFailed(path)))
    else
      var withInput := acc.(datasets := acc.datasets + [files[path]]);
      if spec == "-" then Success(withInput)
      else
        match ParseIndices(split(spec), stoi)
        case None => Failure(Thrown(InvalidBandSpec))
        case Some(indices) =>
          if |indices| == 0 then Failure(UndefinedAccess)   // max_element of an empty list is dereferenced
          else
            match SelectBands(files[path], indices)
            case Failure(e) => Failure(Thrown(e))
            case Success(selected) => Success(withInput.(bands := acc.bands + selected))
  }

  /** The input loop over the (path, specifier) pairs, in order. */
  function CollectInputs<T>(pairs: seq<string>, files: map<string, Dataset<T>>,
                            split: string -> seq<string>, stoi: string -> Option<int>)
    : (r: Result<Collected<T>, Abort>)
    requires |pairs| % 2 == 0
    ensures r.Success? ==> |r.value.datasets| == |pairs| / 2
    decreases |pairs|
  {
    if pairs == [] then Success(Collected([], []))
    else
      var n := |pairs|;
      match CollectInputs(pairs[..n - 2], files, split, stoi)
      case Failure(abort) => Failure(abort)
      case Success(acc) => ProcessPair(acc, pairs[n - 2], pairs[n - 1], files, split, stoi)
  }

  /** The bands behind non-null pointers. */
  function Unwrap<T>(bands: seq<Option<Band<T>>>): (r: seq<Band<T>>)
    requires forall k :: 0 <= k < |bands| ==> bands[k].Some?
    ensures |r| == |bands| && forall k :: 0 <= k < |bands| ==> bands[k] == Some(r[k])
  {
    seq(|bands|, k requires 0 <= k < |bands| => bands[k].value)
  }

  /**
   * `main`: usage unless the argument count is accepted; otherwise collect
   * the inputs and merge the bands into argv[1] with the first input as
   * metadata donor. An empty band list or a null band reaching the merge is
   * undefined behaviour.
   */
  function MergeTiffSpec<T>(argv: seq<string>, files: map<string, Dataset<T>>,
                            split: string -> seq<string>, stoi: string -> Option<int>, driver: Driver)
    : CliOutcome<T>
  {
    if !ArgcAccepted(|argv|) then Usage
    else
      match CollectInputs(argv[2..], files, split, stoi)
      case Failure(Thrown(e)) => Failed(e)
      case Failure(UndefinedAccess) => UndefinedBehaviour
      case Success(c) =>
        if |c.bands| == 0 || exists k :: 0 <= k < |c.bands| && c.bands[k].None? then UndefinedBehaviour
        else
          match MergeDispatchSpec(argv[1], Some(c.datasets[0]), Unwrap(c.bands), driver)
          case Failure(e) => Failed(e)
          case Success(out) => Merged(argv[1], out)
  }

  /** The process exit code: 0 for usage and success, 1 for a logged error, none for undefined behaviour. */
  function ExitCode<T>(o: CliOutcome<T>): (code: Option<int>)
    ensures code == Some(1) <==> o.Failed?
    ensures code == Some(0) <==> o.Usage? || o.Merged?
    ensures code.None? <==> o.UndefinedBehaviour?
  {
    match o
    case Usage => Some(0)
    case Merged(_, _) => Some(0)
    case Failed(_) => Some(1)
    case UndefinedBehaviour => None
  }

  /** The line logged for a failed run. */
  function ErrorLine(e: Error): (line: string)
    ensures |line| == 7 + |Message(e)|
    ensures line[..7] == "Error: " && line[7..] == Message(e)
  {
    "Error: " + Message(e)
  }

  /**
   * The parse succeeds exactly when `stoi` accepts every piece, and then
   * yields each piece's value converted to unsigned, in order.
   */
  lemma {:induction false} ParseIndicesMeaning(pieces: seq<string>, stoi: string -> Option<int>)
    ensures var r := ParseIndices(pieces, stoi);
      && (r.Some? <==> forall k :: 0 <= k < |pieces| ==> stoi(pieces[k]).Some?)
      && (r.Some? ==> forall k :: 0 <= k < |pieces| ==> r.value[k] == ToUnsigned(stoi(pieces[k]).value))
    decreases |pieces|
  {
    if pieces != [] {
      var n := |pieces|;
      var prefix := pieces[..n - 1];
      ParseIndicesMeaning(prefix, stoi);
      assert forall k :: 0 <= k < n - 1 ==> prefix[k] == pieces[k];
      if ParseIndices(prefix, stoi).None? {
        var k :| 0 <= k < n - 1 && stoi(prefix[k]).None?;
        assert stoi(pieces[k]).None?;
      }
    }
  }

  /** Once the parse of a prefix fails, the parse of any extension fails. */
  lemma {:induction false} ParseIndicesExtend(pieces: seq<string>, stoi: string -> Option<int>, k: nat)
    requires k <= |pieces|
    requires ParseIndices(pieces[..k], stoi).None?
    ensures ParseIndices(pieces, stoi).None?
  {
    ParseIndicesMeaning(pieces[..k], stoi);
    ParseIndicesMeaning(pieces, stoi);
    var j :| 0 <= j < k && stoi(pieces[..k][j]).None?;
    assert stoi(pieces[j]).None?;
  }

  /** Once collecting the first `h` pairs aborts, collecting all of them aborts the same way. */
  lemma {:induction false} CollectExtendFailure<T>(pairs: seq<string>, h: nat, files: map<string, Dataset<T>>,
                                                   split: string -> seq<string>, stoi: string -> Option<int>)
    requires |pairs| % 2 == 0 && 2 * h <= |pairs|
    requires CollectInputs(pairs[..2 * h], files, split, stoi).Failure?
    ensures CollectInputs(pairs, files, split, stoi) == CollectInputs(pairs[..2 * h], files, split, stoi)
    decreases |pairs|
  {
    var n := |pairs|;
    if 2 * h < n {
      assert n == 2 * (n / 2);
      assert pairs[..n - 2][..2 * h] == pairs[..2 * h];
      CollectExtendFailure(pairs[..n - 2], h, files, split, stoi);
    } else {
      assert pairs[..2 * h] == pairs;
    }
  }

  /** The usage text is shown exactly when the argument count is rejected. */
  lemma UsageExactlyWhenArgcRejected<T>(argv: seq<string>, files: map<string, Dataset<T>>,
                                        split: string -> seq<string>, stoi: string -> Option<int>, driver: Driver)
    ensures MergeTiffSpec(argv, files, split, stoi, driver).Usage? <==> !ArgcAccepted(|argv|)
  {
  }

  /** A successful collection opened every input path, in order, whatever its specifier. */
  lemma {:induction false} CollectOpensEveryInput<T>(pairs: seq<string>, files: map<string, Dataset<T>>,
                                                     split: string -> seq<string>, stoi: string -> Option<int>)
    requires |pairs| % 2 == 0 && CollectInputs(pairs, files, split, stoi).Success?
    ensures forall j :: 0 <= j < |pairs| / 2 ==>
      pairs[2 * j] in files && CollectInputs(pairs, files, split, stoi).value.datasets[j] == files[pairs[2 * j]]
    decreases |pairs|
  {
    if pairs != [] {
      var n := |pairs|;
      var m := n / 2;
      assert n == 2 * m && (n - 2) / 2 == m - 1;
      CollectOpensEveryInput(pairs[..n - 2], files, split, stoi);
      PairContribution(pairs, files, split, stoi);
      var prev := CollectInputs(pairs[..n - 2], files, split, stoi).value;
      var whole := CollectInputs(pairs, files, split, stoi).value;
      forall j | 0 <= j < m
        ensures pairs[2 * j] in files && whole.datasets[j] == files[pairs[2 * j]]
      {
        if j < m - 1 {
          assert pairs[..n - 2][2 * j] == pairs[2 * j];
          assert whole.datasets[j] == prev.datasets[j];
        }
      }
    }
  }

  /**
   * The last pair's contribution: its dataset is appended; a "-" specifier
   * adds no band; any other specifier appends the selected bands in the
   * order listed.
   */
  lemma PairContribution<T>(pairs: seq<string>, files: map<string, Dataset<T>>,
                            split: string -> seq<string>, stoi: string -> Option<int>)
    requires |pairs| >= 2 && |pairs| % 2 == 0 && CollectInputs(pairs, files, split, stoi).Success?
    ensures var n := |pairs|;
      var prev := CollectInputs(pairs[..n - 2], files, split, stoi);
      var c := CollectInputs(pairs, files, split, stoi).value;
      && prev.Success? && pairs[n - 2] in files
      && c.datasets == prev.value.datasets + [files[pairs[n - 2]]]
      && (pairs[n - 1] == "-" ==> c.bands == prev.value.bands)
      && (pairs[n - 1] != "-" ==>
            var indices := ParseIndices(split(pairs[n - 1]), stoi);
            && indices.Some? && |indices.value| > 0
            && SelectBands(files[pairs[n - 2]], indices.value).Success?
            && c.bands == prev.value.bands + SelectBands(files[pairs[n - 2]], indices.value).value)
  {
  }

  /**
   * Bands accumulate in input order: the collection of any even prefix of the
   * pairs succeeds and its datasets and bands are prefixes of the whole's.
   */
  lemma {:induction false} CollectPrefix<T>(pairs: seq<string>, k: nat, files: map<string, Dataset<T>>,
                                            split: string -> seq<string>, stoi: string -> Option<int>)
    requires |pairs| % 2 == 0 && k % 2 == 0 && k <= |pairs|
    requires CollectInputs(pairs, files, split, stoi).Success?
    ensures CollectInputs(pairs[..k], files, split, stoi).Success?
    ensures var whole := CollectInputs(pairs, files, split, stoi).value;
      var prefix := CollectInputs(pairs[..k], files, split, stoi).value;
      prefix.datasets <= whole.datasets && prefix.bands <= whole.bands
    decreases |pairs|
  {
    if k < |pairs| {
      var n := |pairs|;
      assert pairs[..n - 2][..k] == pairs[..k];
      PairContribution(pairs, files, split, stoi);
      CollectPrefix(pairs[..n - 2], k, files, split, stoi);
    } else {
      assert pairs[..k] == pairs;
    }
  }

  /** Inputs whose specifiers are all "-" open fine and contribute no band at all. */
  lemma {:induction false} CollectAllDash<T>(pairs: seq<string>, files: map<string, Dataset<T>>,
                                             split: string -> seq<string>, stoi: string -> Option<int>)
    requires |pairs| % 2 == 0
    requires forall k :: 0 <= k < |pairs| ==> (k % 2 == 0 ==> pairs[k] in files) && (k % 2 == 1 ==> pairs[k] == "-")
    ensures CollectInputs(pairs, files, split, stoi).Success?
    ensures CollectInputs(pairs, files, split, stoi).value.bands == []
    decreases |pairs|
  {
    if pairs != [] {
      var n := |pairs|;
      CollectAllDash(pairs[..n - 2], files, split, stoi);
      assert pairs[n - 2] in files && pairs[n - 1] == "-";
    }
  }

  /** Nothing stops an empty band list from reaching the merge: all-"-" inputs are undefined behaviour. */
  lemma AllDashIsUndefined<T>(argv: seq<string>, files: map<string, Dataset<T>>,
                              split: string -> seq<string>, stoi: string -> Option<int>, driver: Driver)
    requires ArgcAccepted(|argv|)
    requires forall k :: 2 <= k < |argv| ==> (k % 2 == 0 ==> argv[k] in files) && (k % 2 == 1 ==> argv[k] == "-")
    ensures MergeTiffSpec(argv, files, split, stoi, driver) == UndefinedBehaviour
  {
    var pairs := argv[2..];
    assert forall k :: 0 <= k < |pairs| ==> pairs[k] == argv[k + 2];
    CollectAllDash(pairs, files, split, stoi);
  }

  /**
   * The metadata donor is always the first input dataset, even when its
   * specifier is "-": a successful run copies its metadata domains,
   * projection and geotransform, and its GCPs when it has any.
   */
  lemma DonorIsFirstInput<T>(argv: seq<string>, files: map<string, Dataset<T>>,
                             split: string -> seq<string>, stoi: string -> Option<int>, driver: Driver)
    requires MergeTiffSpec(argv, files, split, stoi, driver).Merged?
    ensures ArgcAccepted(|argv|) && argv[2] in files
    ensures MergeTiffSpec(argv, files, split, stoi, driver).outputFile == argv[1]
    ensures var out := MergeTiffSpec(argv, files, split, stoi, driver).output;
      var donor := files[argv[2]];
      && (forall dom :: GetMetadata(out, dom)
            == if dom in DonorDomains(donor) then GetMetadata(donor, dom) else [])
      && out.projection == donor.projection
      && out.geoTransform == donor.geoTransform
      && out.gcps == donor.gcps
  {
    var pairs := argv[2..];
    CollectOpensEveryInput(pairs, files, split, stoi);
    assert pairs[2 * 0] == argv[2];
  }

  /** A band specifier "0" passes the index check and leads to undefined behaviour, not an error. */
  lemma ZeroIndexIsUndefined<T>(argv: seq<string>, files: map<string, Dataset<T>>,
                                split: string -> seq<string>, stoi: string -> Option<int>, driver: Driver)
    requires |argv| == 4 && argv[2] in files && argv[3] != "-"
    requires split(argv[3]) == ["0"] && stoi("0") == Some(0)
    ensures MergeTiffSpec(argv, files, split, stoi, driver) == UndefinedBehaviour
  {
    assert ParseIndices(["0"], stoi) == Some([0]) by {
      ParseIndicesMeaning(["0"], stoi);
      var r := ParseIndices(["0"], stoi);
      assert ["0"][0] == "0";
      assert r.Some? && |r.value| == 1 && r.value[0] == 0;
      assert r.value == [0];
    }
    ZeroIndexPassesCheck(files[argv[2]]);
    var pairs := argv[2..];
    assert |pairs| == 2 && pairs[0] == argv[2] && pairs[1] == argv[3] && pairs[..0] == [];
    assert CollectInputs(pairs[..0], files, split, stoi) == Success(Collected([], []));
    var c := CollectInputs(pairs, files, split, stoi);
    assert c == ProcessPair(Collected([], []), argv[2], argv[3], files, split, stoi);
    assert c.Success? && |c.value.bands| == 1 && c.value.bands[0].None?;
  }

  /** A negative specifier wraps to a huge unsigned index and is reported as "invalid band index 4294967295". */
  lemma NegativeIndexReportedUnsigned<T>(argv: seq<string>, files: map<string, Dataset<T>>,
                                         split: string -> seq<string>, stoi: string -> Option<int>, driver: Driver)
    requires |argv| == 4 && argv[2] in files && argv[3] != "-" && |files[argv[2]].bands| < 0xFFFF_FFFF
    requires split(argv[3]) == ["-1"] && stoi("-1") == Some(-1)
    ensures MergeTiffSpec(argv, files, split, stoi, driver) == Failed(InvalidBandIndex(0xFFFF_FFFF))
  {
    assert ParseIndices(["-1"], stoi) == Some([0xFFFF_FFFF]) by {
      ParseIndicesMeaning(["-1"], stoi);
      var r := ParseIndices(["-1"], stoi);
      assert ["-1"][0] == "-1";
      assert r.Some? && |r.value| == 1 && r.value[0] == 0xFFFF_FFFF;
      assert r.value == [0xFFFF_FFFF];
    }
    assert MaxOf([0xFFFF_FFFF]) == 0xFFFF_FFFF;
    assert SelectBands(files[argv[2]], [0xFFFF_FFFF]) == Failure(InvalidBandIndex(0xFFFF_FFFF));
    var pairs := argv[2..];
    assert |pairs| == 2 && pairs[0] == argv[2] && pairs[1] == argv[3] && pairs[..0] == [];
    assert CollectInputs(pairs[..0], files, split, stoi) == Success(Collected([], []));
    var c := CollectInputs(pairs, files, split, stoi);
    assert c == ProcessPair(Collected([], []), argv[2], argv[3], files, split, stoi);
    assert c == Failure(Thrown(InvalidBandIndex(0xFFFF_FFFF)));
  }

  /**
   * The body of the input loop: open the path, then unless the specifier is
   * "-", parse its pieces with `stoi` and append the selected bands.
   */
  method ProcessInputPair<T>(acc: Collected<T>, path: string, bandStr: string, files: map<string, Dataset<T>>,
                             split: string -> seq<string>, stoi: string -> Option<int>)
    returns (r: Result<Collected<T>, Abort>)
    ensures r == ProcessPair(acc, path, bandStr, files, split, stoi)
  {
    if path !in files {
      return Failure(Thrown(InputOpenFailed(path)));
    }
    var datasets := acc.datasets + [files[path]];
    if bandStr == "-" {
      return Success(Collected(datasets, acc.bands));
    }
    var bandStrs := split(bandStr);
    var bandIndices: seq<nat> := [];
    for j := 0 to |bandStrs|
      invariant ParseIndices(bandStrs[..j], stoi) == Some(bandIndices)
    {
      assert bandStrs[..j + 1][..j] == bandStrs[..j];
      var parsed := stoi(bandStrs[j]);
      if parsed.None? {
        ParseIndicesExtend(bandStrs, stoi, j + 1);
        return Failure(Thrown(InvalidBandSpec));
      }
      bandIndices := bandIndices + [ToUnsigned(parsed.value)];
    }
    assert bandStrs[..|bandStrs|] == bandStrs;
    if |bandIndices| == 0 {
      return Failure(UndefinedAccess);
    }
    var datasetBands := GetRasterBands(files[path], bandIndices);
    if datasetBands.Failure? {
      return Failure(Thrown(datasetBands.error));
    }
    r := Success(Collected(datasets, acc.bands + datasetBands.value));
  }

  /** One more pair of a successful prefix extends the collection by one `ProcessPair` step. */
  lemma CollectStep<T>(pairs: seq<string>, done: nat, acc: Collected<T>, path: string, spec: string,
                       files: map<string, Dataset<T>>, split: string -> seq<string>, stoi: string -> Option<int>)
    requires 2 * done + 2 <= |pairs| && pairs[2 * done] == path && pairs[2 * done + 1] == spec
    requires CollectInputs(pairs[..2 * done], files, split, stoi) == Success(acc)
    ensures CollectInputs(pairs[..2 * (done + 1)], files, split, stoi) == ProcessPair(acc, path, spec, files, split, stoi)
  {
    assert pairs[..2 * (done + 1)][..2 * done] == pairs[..2 * done];
  }

  /** The `i += 2` loop of `main` over the (path, specifier) pairs that follow the output path. */
  method CollectInputPairs<T>(argv: seq<string>, files: map<string, Dataset<T>>,
                              split: string -> seq<string>, stoi: string -> Option<int>)
    returns (r: Result<Collected<T>, Abort>)
    requires |argv| >= 2 && |argv| % 2 == 0
    ensures r == CollectInputs(argv[2..], files, split, stoi)
  {
    ghost var pairs := argv[2..];
    ghost var pairCount := |pairs| / 2;
    assert |pairs| == 2 * pairCount;
    ghost var done := 0;
    var collected: Collected<T> := Collected([], []);
    assert pairs[..0] == [];
    var i := 2;
    while i < |argv|
      invariant i == 2 + 2 * done && done <= pairCount
      invariant CollectInputs(pairs[..2 * done], files, split, stoi) == Success(collected)
    {
      var step := ProcessInputPair(collected, argv[i], argv[i + 1], files, split, stoi);
      CollectStep(pairs, done, collected, argv[i], argv[i + 1], files, split, stoi);
      if step.Failure? {
        CollectExtendFailure(pairs, done + 1, files, split, stoi);
        return step;
      }
      collected := step.value;
      i := i + 2;
      done := done + 1;
    }
    assert pairs[..2 * done] == pairs;
    r := Success(collected);
  }

  /** `main`: the argc check, the input loop and the final merge. */
  method MergeTiff<T>(argv: seq<string>, files: map<string, Dataset<T>>,
                      split: string -> seq<string>, stoi: string -> Option<int>, driver: Driver)
    returns (outcome: CliOutcome<T>)
    ensures outcome == MergeTiffSpec(argv, files, split, stoi, driver)
  {
    if !(|argv| > 3 && |argv| % 2 == 0) {
      return Usage;
    }
    var outputFile := argv[1];
    var inputs := CollectInputPairs(argv, files, split, stoi);
    if inputs.Failure? {
      match inputs.error
      case Thrown(e) => return Failed(e);
      case UndefinedAccess => return UndefinedBehaviour;
    }
    var bands := inputs.value.bands;
    if |bands| == 0 || exists k :: 0 <= k < |bands| && bands[k].None? {
      return UndefinedBehaviour;
    }
    var merged := CreateMergedDataset(outputFile, Some(inputs.value.datasets[0]), Unwrap(bands), driver);
    if merged.Failure? {
      return Failed(merged.error);
    }
    outcome := Merged(outputFile, merged.value);
  }
}
