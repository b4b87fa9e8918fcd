/**
 * An abstract model of the GDAL objects the library touches: a dataset is a
 * sequence of bands plus metadata domains, a projection, an optional affine
 * geotransform and a ground-control-point list. GDAL getters become fields
 * or total functions of these values; setters become record updates.
 */
module DatasetModel {
  import opened Wrappers
  import opened DatatypeConversion

  /** A C++ `double` as GDAL hands it over; it is only ever copied, never computed with. */
  type Double = bv64

  /** `GDALColorInterp`. */
  datatype ColourInterp =
    | Undefined | GrayIndex | PaletteIndex | RedBand | GreenBand | BlueBand | AlphaBand
    | HueBand | SaturationBand | LightnessBand | CyanBand | MagentaBand | YellowBand
    | BlackBand | YCbCrYBand | YCbCrCbBand | YCbCrCrBand

  /**
   * A raster band: its datatype tag, its size, its pixels (row-major), the
   * no-data value if it declares one, and its colour interpretation.
   */
  datatype Band<T> = Band(
    dtype: GdalType,
    xSize: nat,
    ySize: nat,
    pixels: seq<T>,
    noData: Option<Double>,
    colour: ColourInterp)

  /** The six coefficients `GetGeoTransform` fills in. */
  datatype GeoTransform = GeoTransform(
    originX: Double, pixelWidth: Double, rowRotation: Double,
    originY: Double, columnRotation: Double, pixelHeight: Double)

  /** A ground control point. */
  datatype Gcp = Gcp(id: string, info: string, pixel: Double, line: Double, x: Double, y: Double, z: Double)

  /**
   * A dataset. `domainList` is what `GetMetadataDomainList` returns (`None`
   * for a null list); `metadata` maps a domain name to its "KEY=VALUE"
   * list; `geoTransform` is `None` when `GetGeoTransform` reports
   * `CE_Failure`; `gcps` has `GetGCPCount()` elements.
   */
  datatype Dataset<T> = Dataset(
    bands: seq<Band<T>>,
    domainList: Option<seq<string>>,
    metadata: map<string, seq<string>>,
    projection: string,
    geoTransform: Option<GeoTransform>,
    gcps: seq<Gcp>,
    gcpProjection: string)

  /** The name under which GDAL keeps the default metadata domain. */
  const DefaultDomain: string := ""

  /** `GetMetadata(domain)`: the domain's list, empty when the domain is absent. */
  function GetMetadata<T>(d: Dataset<T>, domain: string): seq<string> {
    if domain in d.metadata then d.metadata[domain] else []
  }

  /** `GetRasterBand(index)`: band `index` (1-based), or null outside 1..count. */
  function GetRasterBand<T>(d: Dataset<T>, index: nat): (b: Option<Band<T>>)
    ensures b.Some? <==> 1 <= index <= |d.bands|
    ensures b.Some? ==> b.value == d.bands[index - 1]
  {
    if 1 <= index <= |d.bands| then Some(d.bands[index - 1]) else None
  }

  /**
   * What the GeoTIFF driver offers: whether it is registered, whether
   * `Create` succeeds, and the colour interpretation each new band starts
   * with. The driver decides that band by band:
   * `initialColour(dtype, count, k)` is the colour of band k (0-based) of a
   * freshly created dataset of `count` bands of type `dtype`.
   */
  datatype Driver = Driver(registered: bool, createSucceeds: bool,
                           initialColour: (GdalType, nat, nat) -> ColourInterp)

  /**
   * The dataset `Create` returns: `count` bands of the given size and type,
   * no no-data values, no metadata, projection, geotransform or GCPs. The
   * initial pixel contents are not modelled (every band is overwritten).
   */
  function Created<T>(driver: Driver, xSize: nat, ySize: nat, count: nat, dtype: GdalType): (d: Dataset<T>)
    ensures |d.bands| == count
    ensures forall k :: 0 <= k < count ==>
      d.bands[k].colour == driver.initialColour(dtype, count, k) && d.bands[k].noData.None?
  {
    Dataset(
      seq(count, (k: nat) => Band(dtype, xSize, ySize, [], None, driver.initialColour(dtype, count, k))),
      None, map[], "", None, [], "")
  }
}
