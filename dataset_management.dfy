/**
 * The library's dataset logic: band selection, the merge engine and its
 * type dispatch, the colour-interpretation heuristic and the in-memory
 * ("MEM") descriptor that wraps a `RasterData` buffer.
 */
module DatasetManagement {
  import opened Wrappers
  import opened Errors
  import opened DatatypeConversion
  import opened DatasetModel
  import Raster

  // ---------------------------------------------------------------------
  // Band selection
  // ---------------------------------------------------------------------

  /** `*std::max_element(...)`: the largest element of a non-empty sequence. */
  function MaxOf(s: seq<nat>): (m: nat)
    requires |s| > 0
    ensures m in s
    ensures forall k :: 0 <= k < |s| ==> s[k] <= m
  {
    if |s| == 1 then s[0]
    else
      var rest := MaxOf(s[1..]);
      if s[0] >= rest then s[0] else rest
  }

  /**
   * `getRasterBands`: fails with "invalid band index N" (N the largest
   * request) exactly when some request exceeds the band count; otherwise one
   * band per request, in request order, duplicates kept. There is no lower
   * bound check: index 0 passes and yields a null band.
   */
  function SelectBands<T>(d: Dataset<T>, indices: seq<nat>): (r: Result<seq<Option<Band<T>>>, Error>)
    requires |indices| > 0
    ensures r.Failure? <==> exists k :: 0 <= k < |indices| && indices[k] > |d.bands|
    ensures r.Failure? ==> r.error == InvalidBandIndex(MaxOf(indices))
    ensures r.Success? ==> |r.value| == |indices|
    ensures r.Success? ==> forall k :: 0 <= k < |indices| ==> r.value[k] == GetRasterBand(d, indices[k])
  {
    var maxBand := MaxOf(indices);
    if maxBand > |d.bands| then Failure(InvalidBandIndex(maxBand))
    else Success(seq(|indices|, k requires 0 <= k < |indices| => GetRasterBand(d, indices[k])))
  }

  /** The `push_back` loop of `getRasterBands` computes `SelectBands`. */
  method GetRasterBands<T>(d: Dataset<T>, indices: seq<nat>) returns (r: Result<seq<Option<Band<T>>>, Error>)
    requires |indices| > 0
    ensures r == SelectBands(d, indices)
  {
    var maxBand := MaxOf(indices);
    if maxBand > |d.bands| {
      return Failure(InvalidBandIndex(maxBand));
    }
    var bands: seq<Option<Band<T>>> := [];
    for i := 0 to |indices|
      invariant |bands| == i
      invariant forall k :: 0 <= k < i ==> bands[k] == GetRasterBand(d, indices[k])
    {
      bands := bands + [GetRasterBand(d, indices[i])];
    }
    assert bands == seq(|indices|, k requires 0 <= k < |indices| => GetRasterBand(d, indices[k]));
    r := Success(bands);
  }

  /** A successful selection holds a null band exactly where index 0 was requested. */
  lemma SelectedBandNullIffZero<T>(d: Dataset<T>, indices: seq<nat>, k: nat)
    requires |indices| > 0 && SelectBands(d, indices).Success? && k < |indices|
    ensures SelectBands(d, indices).value[k].None? <==> indices[k] == 0
  {
  }

  /** Index 0 passes the validity check: the request [0] succeeds with a null band. */
  lemma ZeroIndexPassesCheck<T>(d: Dataset<T>)
    ensures SelectBands(d, [0]) == Success([None])
  {
    assert MaxOf([0]) == 0;
    assert seq(1, k requires 0 <= k < 1 => GetRasterBand(d, [0][k])) == [None];
  }

  /** `getAllRasterBands`: bands 1..count in ascending order, none of them null. */
  method GetAllRasterBands<T>(d: Dataset<T>) returns (r: seq<Option<Band<T>>>)
    ensures |r| == |d.bands|
    ensures forall k :: 0 <= k < |r| ==> r[k] == GetRasterBand(d, k + 1) == Some(d.bands[k])
  {
    r := [];
    var index := 1;
    while index <= |d.bands|
      invariant 1 <= index <= |d.bands| + 1
      invariant |r| == index - 1
      invariant forall k :: 0 <= k < |r| ==> r[k] == Some(d.bands[k])
    {
      r := r + [GetRasterBand(d, index)];
      index := index + 1;
    }
  }

  /** Requesting every index 1..count selects what `getAllRasterBands` returns. */
  lemma AllBandsIsFullSelection<T>(d: Dataset<T>)
    requires |d.bands| > 0
    ensures var all := seq(|d.bands|, k requires 0 <= k < |d.bands| => k + 1);
      SelectBands(d, all) == Success(seq(|d.bands|, k requires 0 <= k < |d.bands| => Some(d.bands[k])))
  {
    var all := seq(|d.bands|, k requires 0 <= k < |d.bands| => k + 1);
    assert forall k :: 0 <= k < |all| ==> all[k] <= |d.bands|;
    assert seq(|all|, k requires 0 <= k < |all| => GetRasterBand(d, all[k]))
      == seq(|d.bands|, k requires 0 <= k < |d.bands| => Some(d.bands[k]));
  }

  // ---------------------------------------------------------------------
  // Merge engine
  // ---------------------------------------------------------------------

  /** Every listed band has the expected datatype tag. */
  predicate AllOfType<T>(bands: seq<Band<T>>, expected: GdalType) {
    forall k :: 0 <= k < |bands| ==> bands[k].dtype == expected
  }

  /** The type-check loop of `createMergedDatasetForType`. */
  method CheckBandTypes<T>(bands: seq<Band<T>>, expected: GdalType) returns (ok: bool)
    ensures ok <==> forall k :: 0 <= k < |bands| ==> bands[k].dtype == expected
  {
    for i := 0 to |bands|
      invariant forall k :: 0 <= k < i ==> bands[k].dtype == expected
    {
      if bands[i].dtype != expected {
        return false;
      }
    }
    return true;
  }

  /** The domains a donor's metadata is copied from: the listed ones, or only the default domain. */
  function DonorDomains<T>(d: Dataset<T>): set<string> {
    match d.domainList
    case None => {DefaultDomain}
    case Some(list) => set dom | dom in list
  }

  /** `SetMetadata(GetMetadata(dom), dom)` for each listed domain, in order. */
  function CopyDomains<T>(m: map<string, seq<string>>, d: Dataset<T>, domains: seq<string>): map<string, seq<string>>
    decreases |domains|
  {
    if domains == [] then m
    else
      var last := domains[|domains| - 1];
      CopyDomains(m, d, domains[..|domains| - 1])[last := GetMetadata(d, last)]
  }

  /** After copying, a listed domain holds the donor's list; any other domain is untouched. */
  lemma {:induction false} CopyDomainsEffect<T>(m: map<string, seq<string>>, d: Dataset<T>, domains: seq<string>, dom: string)
    ensures dom in domains ==>
      (dom in CopyDomains(m, d, domains) && CopyDomains(m, d, domains)[dom] == GetMetadata(d, dom))
    ensures dom !in domains ==> (dom in CopyDomains(m, d, domains) <==> dom in m)
    ensures dom !in domains && dom in m ==> CopyDomains(m, d, domains)[dom] == m[dom]
    decreases |domains|
  {
    if domains != [] {
      CopyDomainsEffect(m, d, domains[..|domains| - 1], dom);
      assert domains == domains[..|domains| - 1] + [domains[|domains| - 1]];
    }
  }

  /**
   * The metadata block of `createMergedDatasetForType`. Without a donor
   * nothing changes. With a donor: the listed domains (only the default
   * domain for a null list) are copied, the projection is copied
   * unconditionally, the geotransform only when the donor has one, and the
   * GCPs only when there is at least one.
   */
  function WithDonorMetadata<T>(out: Dataset<T>, donor: Option<Dataset<T>>): (r: Dataset<T>)
    ensures r.bands == out.bands && r.domainList == out.domainList
    ensures donor.None? ==> r == out
    ensures donor.Some? ==> forall dom ::
      GetMetadata(r, dom) == (if dom in DonorDomains(donor.value) then GetMetadata(donor.value, dom) else GetMetadata(out, dom))
    ensures donor.Some? ==> r.projection == donor.value.projection
    ensures donor.Some? ==>
      r.geoTransform == (if donor.value.geoTransform.Some? then donor.value.geoTransform else out.geoTransform)
    ensures donor.Some? ==>
      (r.gcps, r.gcpProjection)
        == (if |donor.value.gcps| > 0 then (donor.value.gcps, donor.value.gcpProjection) else (out.gcps, out.gcpProjection))
  {
    match donor
    case None => out
    case Some(d) =>
      var metadata := match d.domainList
        case None => out.metadata[DefaultDomain := GetMetadata(d, DefaultDomain)]
        case Some(list) => CopyDomains(out.metadata, d, list);
      var r := out.(metadata := metadata, projection := d.projection);
      var r := if d.geoTransform.Some? then r.(geoTransform := d.geoTransform) else r;
      var r := if |d.gcps| > 0 then r.(gcps := d.gcps, gcpProjection := d.gcpProjection) else r;
      assert forall dom ::
        GetMetadata(r, dom) == (if dom in DonorDomains(d) then GetMetadata(d, dom) else GetMetadata(out, dom)) by {
        forall dom
          ensures GetMetadata(r, dom)
            == if dom in DonorDomains(d) then GetMetadata(d, dom) else GetMetadata(out, dom)
        {
          if d.domainList.Some? {
            CopyDomainsEffect(out.metadata, d, d.domainList.value, dom);
          }
        }
      }
      r
  }

  /** The metadata block, step by step: the domain `while` loop and the conditional copies. */
  method CopyMetadata<T>(out: Dataset<T>, donor: Option<Dataset<T>>) returns (r: Dataset<T>)
    ensures r == WithDonorMetadata(out, donor)
  {
    r := out;
    if donor.Some? {
      var d := donor.value;
      if d.domainList.None? {
        r := r.(metadata := r.metadata[DefaultDomain := GetMetadata(d, DefaultDomain)]);
      } else {
        var domains := d.domainList.value;
        var i := 0;
        while i < |domains|
          invariant 0 <= i <= |domains|
          invariant r == out.(metadata := CopyDomains(out.metadata, d, domains[..i]))
        {
          r := r.(metadata := r.metadata[domains[i] := GetMetadata(d, domains[i])]);
          assert domains[..i + 1][..i] == domains[..i];
          i := i + 1;
        }
        assert domains[..|domains|] == domains;
      }
      r := r.(projection := d.projection);
      if d.geoTransform.Some? {
        r := r.(geoTransform := d.geoTransform);
      }
      if |d.gcps| > 0 {
        r := r.(gcps := d.gcps, gcpProjection := d.gcpProjection);
      }
    }
  }

  /**
   * One iteration of the band-copy loop: the output band receives the
   * source's pixels; its no-data value is set iff the source declares one;
   * its colour interpretation is set iff the source's is not `Undefined`.
   */
  function CopiedBand<T>(dst: Band<T>, src: Band<T>): (b: Band<T>)
    ensures b.dtype == dst.dtype && b.xSize == dst.xSize && b.ySize == dst.ySize
    ensures b.pixels == src.pixels
    ensures b.noData == if src.noData.Some? then src.noData else dst.noData
    ensures b.colour == if src.colour != Undefined then src.colour else dst.colour
  {
    var b := dst.(pixels := src.pixels);
    var b := if src.noData.Some? then b.(noData := src.noData) else b;
    if src.colour != Undefined then b.(colour := src.colour) else b
  }

  /** The band-copy loop: listed band k goes to output band k+1 (1-based). */
  method CopyBands<T>(out: Dataset<T>, bands: seq<Band<T>>) returns (r: Dataset<T>)
    requires |out.bands| == |bands|
    ensures r == out.(bands := r.bands) && |r.bands| == |bands|
    ensures forall k :: 0 <= k < |bands| ==> r.bands[k] == CopiedBand(out.bands[k], bands[k])
  {
    r := out;
    for index := 0 to |bands|
      invariant r == out.(bands := r.bands) && |r.bands| == |bands|
      invariant forall k :: 0 <= k < index ==> r.bands[k] == CopiedBand(out.bands[k], bands[k])
      invariant forall k :: index <= k < |bands| ==> r.bands[k] == out.bands[k]
    {
      var inputBand := bands[index];
      var outputBand := r.bands[index];
      outputBand := outputBand.(pixels := inputBand.pixels);
      if inputBand.noData.Some? {
        outputBand := outputBand.(noData := inputBand.noData);
      }
      if inputBand.colour != Undefined {
        outputBand := outputBand.(colour := inputBand.colour);
      }
      r := r.(bands := r.bands[index := outputBand]);
    }
  }

  /**
   * `createMergedDatasetForType<PrimitiveTy>`: the expected tag comes from
   * the primitive type; a band of another type fails before any output is
   * created; then the driver lookup and `Create` may fail; then metadata
   * from the donor, then every band.
   */
  function MergeSpec<T>(prim: Primitive, filename: string, donor: Option<Dataset<T>>,
                        bands: seq<Band<T>>, driver: Driver): (r: Result<Dataset<T>, Error>)
    requires |bands| > 0
    ensures !IsSupported(prim) ==> r == Failure(UnsupportedPrimitive)
    ensures IsSupported(prim) && !AllOfType(bands, PrimitiveToGdal(prim).value) ==> r == Failure(InvalidDatatype)
    ensures r.Success? <==>
      IsSupported(prim) && AllOfType(bands, PrimitiveToGdal(prim).value) && driver.registered && driver.createSucceeds
    ensures IsSupported(prim) && AllOfType(bands, PrimitiveToGdal(prim).value) && !driver.registered
      ==> r == Failure(DriverUnavailable)
    ensures (IsSupported(prim) && AllOfType(bands, PrimitiveToGdal(prim).value) && driver.registered
      && !driver.createSucceeds) ==> r == Failure(OutputCreateFailed(filename))
    ensures r.Success? ==> |r.value.bands| == |bands| && r.value.domainList.None?
    ensures r.Success? ==> forall k :: 0 <= k < |bands| ==>
      && r.value.bands[k].dtype == PrimitiveToGdal(prim).value
      && r.value.bands[k].xSize == bands[0].xSize
      && r.value.bands[k].ySize == bands[0].ySize
      && r.value.bands[k].pixels == bands[k].pixels
      && r.value.bands[k].noData == bands[k].noData
      && r.value.bands[k].colour == (if bands[k].colour != Undefined then bands[k].colour
                                       else driver.initialColour(PrimitiveToGdal(prim).value, |bands|, k))
    ensures r.Success? && donor.None? ==>
      r.value.metadata == map[] && r.value.projection == "" && r.value.geoTransform.None?
      && r.value.gcps == [] && r.value.gcpProjection == ""
    ensures r.Success? && donor.Some? ==>
      && (forall dom :: GetMetadata(r.value, dom)
            == if dom in DonorDomains(donor.value) then GetMetadata(donor.value, dom) else [])
      && r.value.projection == donor.value.projection
      && r.value.geoTransform == donor.value.geoTransform
      && r.value.gcps == donor.value.gcps
      && r.value.gcpProjection == (if |donor.value.gcps| > 0 then donor.value.gcpProjection else "")
  {
    match PrimitiveToGdal(prim)
    case Failure(e) => Failure(e)
    case Success(expected) =>
      if !AllOfType(bands, expected) then Failure(InvalidDatatype)
      else if !driver.registered then Failure(DriverUnavailable)
      else if !driver.createSucceeds then Failure(OutputCreateFailed(filename))
      else
        var created: Dataset<T> := Created(driver, bands[0].xSize, bands[0].ySize, |bands|, expected);
        var withMetadata := WithDonorMetadata(created, donor);
        Success(withMetadata.(bands := seq(|bands|, k requires 0 <= k < |bands| =>
          CopiedBand(withMetadata.bands[k], bands[k]))))
  }

  /** `createMergedDatasetForType`, step by step; it computes `MergeSpec`. */
  method CreateMergedDatasetForType<T>(prim: Primitive, filename: string, donor: Option<Dataset<T>>,
                                       bands: seq<Band<T>>, driver: Driver)
    returns (r: Result<Dataset<T>, Error>)
    requires |bands| > 0
    ensures r == MergeSpec(prim, filename, donor, bands, driver)
  {
    var tag := PrimitiveToGdal(prim);
    if tag.Failure? {
      return Failure(tag.error);
    }
    var expectedType := tag.value;
    var typesOk := CheckBandTypes(bands, expectedType);
    if !typesOk {
      return Failure(InvalidDatatype);
    }
    if !driver.registered {
      return Failure(DriverUnavailable);
    }
    if !driver.createSucceeds {
      return Failure(OutputCreateFailed(filename));
    }
    var dataset: Dataset<T> := Created(driver, bands[0].xSize, bands[0].ySize, |bands|, expectedType);
    dataset := CopyMetadata(dataset, donor);
    ghost var withMetadata := dataset;
    dataset := CopyBands(dataset, bands);
    assert dataset == withMetadata.(bands := seq(|bands|, k requires 0 <= k < |bands| =>
      CopiedBand(withMetadata.bands[k], bands[k])));
    r := Success(dataset);
  }

  /**
   * The `switch` of `createMergedDataset`: the primitive type each of the
   * seven tags dispatches to; any other tag is "unsupported GDAL datatype".
   */
  function GdalToPrimitive(t: GdalType): (r: Result<Primitive, Error>)
    ensures r.Failure? <==> t !in SupportedTags
    ensures r.Failure? ==> r.error == UnsupportedGdalType
    ensures r.Success? ==> IsSupported(r.value) && PrimitiveToGdal(r.value) == Success(t)
  {
    match t
    case GdtByte => Success(UInt8)
    case GdtInt16 => Success(Int16)
    case GdtUInt16 => Success(UInt16)
    case GdtInt32 => Success(Int32)
    case GdtUInt32 => Success(UInt32)
    case GdtFloat32 => Success(Float)
    case GdtFloat64 => Success(Double)
    case _ => Failure(UnsupportedGdalType)
  }

  /** Dispatching on the tag of a supported primitive selects that primitive again. */
  lemma DispatchRoundTrip(p: Primitive)
    requires IsSupported(p)
    ensures GdalToPrimitive(PrimitiveToGdal(p).value) == Success(p)
  {
  }

  /**
   * `createMergedDataset`: dispatches on the first band's tag. It succeeds
   * exactly when that tag is one of the seven, every band carries it, and
   * the driver creates the output; the output bands then carry that tag.
   */
  function MergeDispatchSpec<T>(filename: string, donor: Option<Dataset<T>>, bands: seq<Band<T>>, driver: Driver)
    : (r: Result<Dataset<T>, Error>)
    requires |bands| > 0
    ensures bands[0].dtype !in SupportedTags ==> r == Failure(UnsupportedGdalType)
    ensures r.Success? <==>
      bands[0].dtype in SupportedTags && AllOfType(bands, bands[0].dtype)
      && driver.registered && driver.createSucceeds
    ensures r.Success? ==> forall k :: 0 <= k < |r.value.bands| ==> r.value.bands[k].dtype == bands[0].dtype
  {
    match GdalToPrimitive(bands[0].dtype)
    case Failure(e) => Failure(e)
    case Success(prim) => MergeSpec(prim, filename, donor, bands, driver)
  }

  /** `createMergedDataset`, calling the instantiation its `switch` selects. */
  method CreateMergedDataset<T>(filename: string, donor: Option<Dataset<T>>, bands: seq<Band<T>>, driver: Driver)
    returns (r: Result<Dataset<T>, Error>)
    requires |bands| > 0
    ensures r == MergeDispatchSpec(filename, donor, bands, driver)
  {
    var dtype := bands[0].dtype;
    var prim := GdalToPrimitive(dtype);
    if prim.Failure? {
      return Failure(prim.error);
    }
    r := CreateMergedDatasetForType(prim.value, filename, donor, bands, driver);
  }

  /**
   * Merging bands 1-3 of an 8-bit dataset A with band 1 of an 8-bit dataset
   * B of the same size, with A as donor, gives four bands of A's size
   * holding the four sources' pixels in order, with A's projection and
   * geotransform.
   */
  lemma FourBandScenario<T>(a: Dataset<T>, b: Dataset<T>, driver: Driver)
    requires |a.bands| >= 3 && |b.bands| >= 1
    requires b.bands[0].xSize == a.bands[0].xSize && b.bands[0].ySize == a.bands[0].ySize
    requires a.bands[0].dtype == a.bands[1].dtype == a.bands[2].dtype == b.bands[0].dtype == GdtByte
    requires driver.registered && driver.createSucceeds
    ensures var listed := [a.bands[0], a.bands[1], a.bands[2], b.bands[0]];
      var r := MergeDispatchSpec("out.tif", Some(a), listed, driver);
      && r.Success? && |r.value.bands| == 4
      && (forall k :: 0 <= k < 4 ==>
            r.value.bands[k].pixels == listed[k].pixels
            && r.value.bands[k].xSize == a.bands[0].xSize && r.value.bands[k].ySize == a.bands[0].ySize)
      && r.value.projection == a.projection && r.value.geoTransform == a.geoTransform
  {
  }

  // ---------------------------------------------------------------------
  // Colour interpretation heuristic (datasetFromRaster, wrapRasterData)
  // ---------------------------------------------------------------------

  /**
   * `setColourInterpretation`: Red, Green, Blue, Alpha for band index 0..3
   * of a buffer with at least three channels, unless grayscale is forced;
   * grayscale otherwise.
   */
  function ColourFor(bandIndex: nat, totalChannels: nat, forceGray: bool): (ci: ColourInterp)
    ensures ci == GrayIndex <==> forceGray || totalChannels < 3 || bandIndex > 3
    ensures !forceGray && totalChannels >= 3 && bandIndex <= 3 ==>
      ci == [RedBand, GreenBand, BlueBand, AlphaBand][bandIndex]
  {
    if !forceGray && totalChannels >= 3 && bandIndex <= 3 then
      [RedBand, GreenBand, BlueBand, AlphaBand][bandIndex]
    else
      GrayIndex
  }

  /** Only band index 0 can be assigned Red. */
  lemma RedOnlyAtIndexZero(bandIndex: nat, totalChannels: nat, forceGray: bool)
    ensures ColourFor(bandIndex, totalChannels, forceGray) == RedBand
      <==> bandIndex == 0 && !forceGray && totalChannels >= 3
  {
  }

  /**
   * The colour loop of `datasetFromRaster` and `wrapRasterData`, as
   * written: it runs over indices 1..channels-1, so band 1 keeps the
   * colour interpretation it had.
   */
  method AssignColourInterpretations<T>(d: Dataset<T>, channels: nat, forceGray: bool) returns (r: Dataset<T>)
    requires |d.bands| == channels
    ensures r == d.(bands := r.bands) && |r.bands| == channels
    ensures channels > 0 ==> r.bands[0] == d.bands[0]
    ensures forall k :: 1 <= k < channels ==>
      r.bands[k] == d.bands[k].(colour := ColourFor(k, channels, forceGray))
  {
    r := d;
    var index := 1;
    while index < channels
      invariant 1 <= index && (channels > 0 ==> index <= channels)
      invariant r == d.(bands := r.bands) && |r.bands| == channels
      invariant channels > 0 ==> r.bands[0] == d.bands[0]
      invariant forall k :: 1 <= k < index && k < channels ==>
        r.bands[k] == d.bands[k].(colour := ColourFor(k, channels, forceGray))
      invariant forall k :: index <= k < channels ==> r.bands[k] == d.bands[k]
    {
      r := r.(bands := r.bands[index := r.bands[index].(colour := ColourFor(index, channels, forceGray))]);
      index := index + 1;
    }
  }

  /**
   * A three-channel buffer whose bands start `Undefined` comes out of the
   * as-written loop as Undefined, Green, Blue: Red is never assigned.
   */
  method RgbBufferAsWritten<T>(band: Band<T>) returns (colours: seq<ColourInterp>)
    ensures colours == [band.colour, GreenBand, BlueBand]
  {
    var d := Dataset([band, band, band], None, map[], "", None, [], "");
    var r := AssignColourInterpretations(d, 3, false);
    colours := [r.bands[0].colour, r.bands[1].colour, r.bands[2].colour];
  }

  /** The colour loop as evidently intended: every band, from index 0, gets the heuristic. */
  method AssignColourInterpretationsFromFirst<T>(d: Dataset<T>, channels: nat, forceGray: bool) returns (r: Dataset<T>)
    requires |d.bands| == channels
    ensures r == d.(bands := r.bands) && |r.bands| == channels
    ensures forall k :: 0 <= k < channels ==>
      r.bands[k] == d.bands[k].(colour := ColourFor(k, channels, forceGray))
    ensures forall k :: 0 <= k < channels ==> r.bands[k].colour == HeuristicColours(channels, forceGray)[k]
  {
    r := d;
    for index := 0 to channels
      invariant r == d.(bands := r.bands) && |r.bands| == channels
      invariant forall k :: 0 <= k < index ==>
        r.bands[k] == d.bands[k].(colour := ColourFor(k, channels, forceGray))
      invariant forall k :: index <= k < channels ==> r.bands[k] == d.bands[k]
    {
      r := r.(bands := r.bands[index := r.bands[index].(colour := ColourFor(index, channels, forceGray))]);
    }
  }

  /** The colours the corrected loop gives a dataset of `channels` bands. */
  function HeuristicColours(channels: nat, forceGray: bool): (cs: seq<ColourInterp>)
    ensures |cs| == channels
    ensures forall k :: 0 <= k < channels ==> cs[k] == ColourFor(k, channels, forceGray)
  {
    seq(channels, k requires 0 <= k < channels => ColourFor(k, channels, forceGray))
  }

  /** With the corrected loop: 4 channels give RGBA, 1 gives Gray, 5 give RGBA then Gray. */
  lemma HeuristicExamples()
    ensures HeuristicColours(4, false) == [RedBand, GreenBand, BlueBand, AlphaBand]
    ensures HeuristicColours(1, false) == [GrayIndex]
    ensures HeuristicColours(5, false) == [RedBand, GreenBand, BlueBand, AlphaBand, GrayIndex]
    ensures HeuristicColours(4, true) == [GrayIndex, GrayIndex, GrayIndex, GrayIndex]
  {
  }

  // ---------------------------------------------------------------------
  // MEM descriptor of wrapRasterData
  // ---------------------------------------------------------------------

  /**
   * The layout part of the "MEM:::" open string: sizes, datatype and byte
   * offsets between neighbouring pixels, lines and bands.
   */
  datatype MemDescriptor = MemDescriptor(
    pixels: nat, lines: nat, bands: nat, dtype: GdalType,
    pixelOffset: nat, lineOffset: nat, bandOffset: nat)

  /** The descriptor `wrapRasterData` builds for a buffer of primitive type `prim`. */
  function WrapDescriptor(prim: Primitive, channels: nat, rows: nat, cols: nat): (r: Result<MemDescriptor, Error>)
    ensures r.Failure? <==> !IsSupported(prim)
    ensures r.Success? ==> r.value.pixels == cols && r.value.lines == rows && r.value.bands == channels
    ensures r.Success? ==> PrimitiveToGdal(prim) == Success(r.value.dtype)
  {
    match PrimitiveToGdal(prim)
    case Failure(e) => Failure(e)
    case Success(dtype) =>
      var size := ElementSize(prim);
      Success(MemDescriptor(cols, rows, channels, dtype, channels * size, cols * channels * size, size))
  }

  /**
   * The MEM driver reads band c, line y, pixel x at byte
   * `y*LINEOFFSET + x*PIXELOFFSET + c*BANDOFFSET`, which is exactly
   * `Index(y, x, c) * sizeof(element)`: the descriptor agrees with the buffer layout.
   */
  lemma MemOffsetsAgree(prim: Primitive, channels: nat, rows: nat, cols: nat, y: nat, x: nat, c: nat)
    requires IsSupported(prim)
    ensures var d := WrapDescriptor(prim, channels, rows, cols).value;
      Raster.Index(channels, cols, y, x, c) * ElementSize(prim)
        == y * d.lineOffset + x * d.pixelOffset + c * d.bandOffset
  {
  }
}
