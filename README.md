# mergetiff in Dafny

A model of the core of `mergetiff`, a C++ library and command-line tool built on GDAL. It merges raster bands taken from several GeoTIFF datasets into a single output dataset, and copies georeferencing metadata from a donor dataset. The model covers:

- **Band selection** (`getRasterBands`, `getAllRasterBands`) and the **merge engine** (`createMergedDatasetForType`, `createMergedDataset`). The merge engine works in this order:
  - type agreement;
  - creation of the output;
  - metadata, projection, geotransform and GCP propagation from the donor;
  - the per-band copy, with the no-data and colour-interpretation rules;
  - the type-tag dispatch.
- **The colour-interpretation heuristic** (`setColourInterpretation`), together with the loops in `datasetFromRaster` and `wrapRasterData` that apply it.
- **The in-memory ("MEM") descriptor** built by `wrapRasterData`. This covers its byte offsets and their agreement with the buffer layout.
- **`RasterData`**: the flat pixel buffer, interleaved by channel and stored row-major. It is a class over an `array?<T>` and covers the index formula, the constructors, the move operations and element reads and writes.
- **`ArgsArray`**: a class. It holds NUL-terminated owned strings and rebuilds a null-terminated pointer view on every `get()`.
- **`primitiveToGdal`**: the closed map from the seven primitive pixel types to GDAL datatype tags, and its inverse, the `switch`.
- **`main` of the `mergetiff` tool**:
  - the argument-count rule;
  - the (path, band specifier) loop;
  - `-` meaning "metadata only";
  - the order in which bands accumulate;
  - the first input acting as donor;
  - the mapping from errors to exit codes.

GDAL objects are plain values (module `DatasetModel`):

- A dataset is a sequence of bands plus:
  - a metadata-domain list and metadata domains;
  - a projection;
  - an optional geotransform;
  - GCPs.
- A band has a datatype tag, a size, a pixel sequence, an optional no-data value and a colour interpretation.
- GDAL getters become fields or total functions. Setters become record updates.
- The GeoTIFF driver is a `Driver` record. It says whether the driver is registered, whether `Create` succeeds, and, band by band, which colour interpretation a freshly created band starts with (it may depend on the datatype, the band count and the band's position).
- A null `GDALRasterBand*` is `None`. C++ exceptions become `Result` failures carrying an `Error`, whose `Message` is the exact text passed to `std::runtime_error`.
- Where the C++ code has undefined behaviour, the model has an explicit outcome, `UndefinedBehaviour`. This covers dereferencing a null band and taking `max_element` of an empty list.

The modules, in dependency order:

- `Wrappers`
- `Errors`
- `DatatypeConversion`
- `Raster`
- `Args`
- `DatasetModel`
- `DatasetManagement`
- `MergeTiffCli`

Every imperative routine is a `method` whose `ensures` ties it to a specification function. The properties are proved about those functions.

Two points where the code differs from what a reader might assume, both modelled as the code does them:

- The argument count. The usage line (`source/cli/mergetiff.cpp:62`) shows an output path followed by (input, specifier) pairs. The rule that guards it (`source/cli/mergetiff.cpp:20`) is `argc > 3 && argc % 2 == 0`. Because `argc` counts the program name, an even `argc` is what one output plus whole pairs gives.
- The colours of a wrapped buffer. The `interps` table (`source/lib/DatasetManagement.h:330-335`) and the comment beside it (`source/lib/DatasetManagement.h:341-342`) show that index 0 is meant to be Red, so a four-channel buffer would be Red, Green, Blue, Alpha. The loops that call it start at index 1, so band 1 keeps its colour (see Findings).

## Model

| member | source | states |
|---|---|---|
| Errors.NatToString | source/lib/DatasetManagement.h:52 | `std::to_string` of the band index: a non-empty string of decimal digits whose decimal value is the index, with no leading zero; one digit exactly for values below 10 |
| DatatypeConversion.PrimitiveToGdal | source/lib/DatatypeConversion.h:11-23 | fails with "unsupported primitive type" exactly for the unspecialised types; every specialised type yields one of the seven supported tags |
| DatatypeConversion.PrimitiveToGdalInjective | source/lib/DatatypeConversion.h:17-23 | distinct supported types yield distinct tags |
| DatatypeConversion.PrimitiveToGdalOnto | source/lib/DatatypeConversion.h:17-23 | every one of the seven tags is the image of some supported type |
| DatatypeConversion.ElementSize | source/lib/DatasetManagement.h:167-169 | `sizeof` of each supported type is 1, 2, 4 or 8 bytes; 1 only for `uint8_t`, 8 only for `double` |
| Raster.IndexInBounds | source/lib/RasterData.h:91-93 | for y < rows, x < cols, c < channels the index is below `channels*rows*cols` |
| Raster.IndexInjective | source/lib/RasterData.h:91-93 | two triples with in-range x and c and the same index are equal |
| Raster.CoordinatesOfIndex | source/lib/RasterData.h:10-12 | decomposing an index by channels then columns recovers (y, x, c): row-major, channel fastest |
| Raster.IndexOfCoordinates | source/lib/RasterData.h:10-12 | every position of the buffer is the index of exactly one in-bounds triple |
| Raster.OtherComponentsUnchanged | source/lib/RasterData.h:60-62 | after a write at (y, x, c) every other in-bounds triple reads its old value |
| Raster.RasterData.Empty | source/lib/RasterData.h:17 | default construction: no buffer, all three dimensions 0 |
| Raster.RasterData.constructor | source/lib/RasterData.h:20-26 | stores the dimensions verbatim and allocates a fresh buffer of exactly `channels*rows*cols` elements |
| Raster.RasterData.Moved | source/lib/RasterData.h:33-35 | move construction takes the source's buffer and dimensions; the source loses its buffer but keeps its dimensions |
| Raster.RasterData.MoveFrom | source/lib/RasterData.h:82-88 | the target gets the source's buffer and dimensions; a distinct source's buffer becomes null while its dimensions are not reset; self-move keeps the buffer |
| Raster.RasterData.PixelComponent | source/lib/RasterData.h:65-67 | reads the element at `index(y, x, c)`, which is inside the buffer |
| Raster.RasterData.SetPixelComponent | source/lib/RasterData.h:60-62 | a write through the reference changes exactly the element at `index(y, x, c)`; the dimensions are unchanged |
| Args.Entry | source/lib/ArgsArray.h:30-31 | the stored copy has length \|s\|+1: the characters of s, then NUL |
| Args.PointerView | source/lib/ArgsArray.h:35-46 | n+1 pointers, pointer i to entry i, the last one null |
| Args.ReadCStringOfEntry | source/lib/ArgsArray.h:30-31 | reading a stored copy as a C string gives back a NUL-free argument |
| Args.ArgvRoundTrip | source/lib/ArgsArray.h:35-46 | reading the pointer view of the entries built from a list yields that list |
| Args.ArgsArray.constructor | source/lib/ArgsArray.h:17 | a default-constructed array has no entries |
| Args.ArgsArray.FromVector | source/lib/ArgsArray.h:20-25 | entry i holds argument i, for every i, in order |
| Args.ArgsArray.Add | source/lib/ArgsArray.h:28-32 | appends exactly one entry, the argument plus NUL; earlier entries and the pointer array are unchanged |
| Args.ArgsArray.Get | source/lib/ArgsArray.h:35-46 | rebuilds the pointer array from scratch as the view of the current entries, null-terminated; the entries are unchanged |
| Args.ArgsArray.IsEmpty | source/lib/ArgsArray.h:49-51 | true exactly when no entry has been added |
| Args.GetTwice | source/lib/ArgsArray.h:37-45 | two successive `get()` calls return the same array and leave the entries alone |
| Args.GetAfterAdd | source/lib/ArgsArray.h:37-45 | after `add`, `get()` has one more pointer, to the new entry, and still ends in null |
| Args.DefaultIsEmpty | source/lib/ArgsArray.h:49-51 | a default-constructed array is empty and its pointer array is `[null]` |
| DatasetModel.GetRasterBand | source/lib/DatasetManagement.h:58 | band `index` (1-based) when 1 ≤ index ≤ count, null otherwise |
| DatasetModel.Created | source/lib/DatasetManagement.h:213-220 | `Create` yields exactly `count` bands; band k starts with the driver's initial colour for band k of that type and count, and with no no-data value |
| DatasetManagement.MaxOf | source/lib/DatasetManagement.h:50 | `max_element`: an element of the list, no smaller than any other |
| DatasetManagement.SelectBands | source/lib/DatasetManagement.h:47-62 | fails with "invalid band index N", N the largest request, exactly when some request exceeds the band count; otherwise one band per request, in order, duplicates kept |
| DatasetManagement.GetRasterBands | source/lib/DatasetManagement.h:47-62 | the `push_back` loop computes `SelectBands` |
| DatasetManagement.SelectedBandNullIffZero | source/lib/DatasetManagement.h:57-59 | in a successful selection, a band is null exactly where index 0 was requested |
| DatasetManagement.ZeroIndexPassesCheck | source/lib/DatasetManagement.h:50-53 | the request [0] passes the validity check and yields a null band |
| DatasetManagement.GetAllRasterBands | source/lib/DatasetManagement.h:65-73 | exactly `count` bands, band k+1 at position k, none null |
| DatasetManagement.AllBandsIsFullSelection | source/lib/DatasetManagement.h:65-73 | selecting 1..count gives the same bands as `getAllRasterBands` |
| DatasetManagement.CheckBandTypes | source/lib/DatasetManagement.h:196-203 | passes exactly when every listed band has the expected tag |
| DatasetManagement.CopyDomainsEffect | source/lib/DatasetManagement.h:241-247 | after the domain loop a listed domain holds the donor's list and every other domain is untouched |
| DatasetManagement.WithDonorMetadata | source/lib/DatasetManagement.h:228-271 | no donor: nothing changes; donor: exactly its listed domains are copied (only the default domain for a null list), the projection always, the geotransform only if the donor has one, the GCPs only if there is at least one |
| DatasetManagement.CopyMetadata | source/lib/DatasetManagement.h:228-271 | the domain `while` loop and the conditional copies compute `WithDonorMetadata` |
| DatasetManagement.CopiedBand | source/lib/DatasetManagement.h:276-295 | the output band gets the source's pixels; its no-data value is set iff the source declares one; its colour iff the source's is not Undefined; type and size kept |
| DatasetManagement.CopyBands | source/lib/DatasetManagement.h:274-296 | listed band k is copied into output band k+1, for every k; nothing else in the dataset changes |
| DatasetManagement.MergeSpec | source/lib/DatasetManagement.h:191-299 | errors in source order (type mismatch before any output exists, then the driver, then `Create`); success iff all succeed; output has the first band's size, one band per listed band of the expected type, band k's pixels and no-data value; band k's colour is the source's unless that is Undefined, otherwise the created band k's initial colour; with no donor no metadata, projection, geotransform or GCPs; with a donor exactly its facets |
| DatasetManagement.CreateMergedDatasetForType | source/lib/DatasetManagement.h:191-299 | the step-by-step merge computes `MergeSpec` |
| DatasetManagement.GdalToPrimitive | source/lib/DatasetManagement.h:302-321 | fails with "unsupported GDAL datatype" exactly outside the seven tags; otherwise selects the type whose `primitiveToGdal` is that tag |
| DatasetManagement.DispatchRoundTrip | source/lib/DatasetManagement.h:307-319 | dispatching on the tag of a supported type selects that type again |
| DatasetManagement.MergeDispatchSpec | source/lib/DatasetManagement.h:302-321 | succeeds iff the first band's tag is supported, every band carries it and the driver creates the output; output bands carry that tag |
| DatasetManagement.CreateMergedDataset | source/lib/DatasetManagement.h:302-321 | the dispatching method computes `MergeDispatchSpec` |
| DatasetManagement.FourBandScenario | source/lib/DatasetManagement.h:191-299 | bands 1-3 of A and band 1 of B (all 8-bit, all of A's size), donor A: four bands of A's size holding those pixels in order, with A's projection and geotransform |
| DatasetManagement.ColourFor | source/lib/DatasetManagement.h:326-345 | Gray exactly when forced, fewer than 3 channels or index above 3; otherwise Red, Green, Blue, Alpha by index |
| DatasetManagement.RedOnlyAtIndexZero | source/lib/DatasetManagement.h:328-337 | Red is assigned exactly at index 0 of an unforced buffer of at least 3 channels |
| DatasetManagement.AssignColourInterpretations | source/lib/DatasetManagement.h:139-143 | the loop as written: band 1 is untouched, bands 2..C get the heuristic for their 0-based index |
| DatasetManagement.RgbBufferAsWritten | source/lib/DatasetManagement.h:180-184 | a three-channel buffer ends with its first band's original colour, Green, Blue: Red is never set |
| DatasetManagement.AssignColourInterpretationsFromFirst | source/lib/DatasetManagement.h:139-143 | the corrected loop: every band, band 1 included, gets the heuristic for its 0-based index (`HeuristicColours`) |
| DatasetManagement.HeuristicColours | source/lib/DatasetManagement.h:326-345 | the colours of all C bands under the corrected loop |
| DatasetManagement.HeuristicExamples | source/lib/DatasetManagement.h:326-345 | corrected loop: 4 channels RGBA, 1 Gray, 5 RGBA then Gray, forced gray all Gray |
| DatasetManagement.WrapDescriptor | source/lib/DatasetManagement.h:156-169 | fails for unsupported types; otherwise PIXELS = cols, LINES = rows, BANDS = channels, DATATYPE = the type's tag |
| DatasetManagement.MemOffsetsAgree | source/lib/DatasetManagement.h:167-169 | `index(y,x,c)*size == y*LINEOFFSET + x*PIXELOFFSET + c*BANDOFFSET`: the descriptor matches the buffer layout |
| MergeTiffCli.ToUnsigned | source/cli/mergetiff.cpp:40-42 | the `int` to `unsigned int` conversion: non-negative values kept, negative ones wrapped by 2^32 |
| MergeTiffCli.ParseIndices | source/cli/mergetiff.cpp:39-43 | a successful parse has one index per piece |
| MergeTiffCli.ParseIndicesMeaning | source/cli/mergetiff.cpp:39-43 | the parse succeeds iff `stoi` accepts every piece, and then yields each piece's value as unsigned, in order |
| MergeTiffCli.ParseIndicesExtend | source/cli/mergetiff.cpp:41-43 | once a piece fails to parse, the whole specifier fails |
| MergeTiffCli.CollectInputs | source/cli/mergetiff.cpp:27-53 | a successful loop opened one dataset per pair |
| MergeTiffCli.CollectExtendFailure | source/cli/mergetiff.cpp:27-53 | an error in some pair ends the loop with that error: later pairs are not processed |
| MergeTiffCli.UsageExactlyWhenArgcRejected | source/cli/mergetiff.cpp:20 | the usage text is printed exactly when not (argc > 3 and argc even) |
| MergeTiffCli.CollectOpensEveryInput | source/cli/mergetiff.cpp:27-33 | every input path is opened, in order, whatever its specifier: dataset j is the file at argv[2+2j] |
| MergeTiffCli.PairContribution | source/cli/mergetiff.cpp:33-47 | each pair appends its dataset; "-" appends no band; another specifier appends the selected bands in listed order |
| MergeTiffCli.CollectPrefix | source/cli/mergetiff.cpp:39-47 | bands accumulate in input order: the result for the first pairs is a prefix of the result for all pairs |
| MergeTiffCli.CollectAllDash | source/cli/mergetiff.cpp:34 | when every specifier is "-", the inputs are all opened and no band is collected |
| MergeTiffCli.AllDashIsUndefined | source/cli/mergetiff.cpp:56 | nothing guards the empty band list: all "-" specifiers reach the merge with no bands (undefined behaviour) |
| MergeTiffCli.DonorIsFirstInput | source/cli/mergetiff.cpp:56 | a successful run writes argv[1] with the metadata, projection, geotransform and GCPs of the first input, even when its specifier is "-" |
| MergeTiffCli.ZeroIndexIsUndefined | source/cli/mergetiff.cpp:46 | specifier "0" passes the band check and hands a null band to the merge (undefined behaviour) |
| MergeTiffCli.NegativeIndexReportedUnsigned | source/cli/mergetiff.cpp:40-42 | specifier "-1" wraps to 4294967295 and fails with "invalid band index 4294967295" |
| MergeTiffCli.ProcessInputPair | source/cli/mergetiff.cpp:29-52 | one loop iteration (open, the "-" test, the `stoi` loop, band selection) computes `ProcessPair` |
| MergeTiffCli.CollectStep | source/cli/mergetiff.cpp:27-53 | one more iteration of the loop extends the collected state by one pair |
| MergeTiffCli.CollectInputPairs | source/cli/mergetiff.cpp:27-53 | the `i += 2` loop computes `CollectInputs` of argv[2..] |
| MergeTiffCli.MergeTiff | source/cli/mergetiff.cpp:15-72 | `main` step by step computes `MergeTiffSpec` |
| MergeTiffCli.ExitCode | source/cli/mergetiff.cpp:65-71 | exit code 1 exactly for a logged error, 0 exactly for usage or success, none for undefined behaviour |
| MergeTiffCli.ErrorLine | source/cli/mergetiff.cpp:69 | the logged line is "Error: " followed by the error's message |

## Left out

- GDAL itself is not modelled. This covers `GDALAllRegister`, `GDALOpenEx`/`GDALOpen`, `GetDriverByName`, `Create`, the band and metadata getters and setters, `CSLDestroy` and `GDALClose`. These are foreign calls: they are record fields, the `Driver` record, or the `files` map from path to dataset.
- `RasterIO.h` is not part of this model: `readBand`/`writeBand`/`readDataset`/`writeDataset`. A band copy stores the source's pixel sequence. The ignored `writeBand` result is not modelled, so a failed write is invisible.
- `DriverOptions.h` is not part of this model: `geoTiffOptions` and the creation options passed to `Create`.
- `Utility.h` is not part of this model: `strSplit` is the parameter `split`.
- `std::stoi` is the parameter `stoi`. `None` stands for `std::invalid_argument`. Whitespace handling and trailing characters are not modelled. Neither is `std::out_of_range`, which escapes the `runtime_error` handler and terminates the process.
- `GDALDatasetRef.h` is not part of this model. Ownership and RAII closing are not modelled.
- `ErrorHandling.h` and `LibrarySettings.h` are not part of this model. Failures are always `Result` values, as in the throwing configuration.
- `openDataset` is a lookup in the `files` map. The driver list and the `NUM_THREADS` hint passed to `GDALOpenEx` are not modelled.
- `rasterFromFile`, `rasterFromDataset` and `rasterToFile` are not modelled. The first two read pixels into a `RasterData` and the third writes one to a file through `datasetFromRaster`; all of it is GDAL I/O.
- Args.Entry: a C++ `std::string` is a byte string, and `add` copies `arg.size()+1` bytes. The model's strings are sequences of characters, so `|s|+1` counts characters. A multi-byte encoding of non-ASCII text is not modelled.
- Args.ArgsArray.Get: the C++ `get()` returns `structure.data()`, a pointer into the object's own storage. The next `get()` overwrites that storage, and an `add` followed by `get()` may reallocate it, leaving an earlier pointer dangling. The model returns an independent value of the pointer array, so this aliasing is not captured (`GetTwice` compares values).
- The bodies of `datasetFromRaster` and `wrapRasterData` are modelled only as far as their colour loops and the MEM descriptor's sizes, datatype and offsets. Driver lookup, `Create`, the raster write and the `CPLPrintPointer` pointer text are not modelled.
- `RasterData::getBuffer` is not modelled (it exposes the `data` field). The `channels()`, `rows()` and `cols()` accessors are the class's fields, read directly. Copy deletion is not modelled.
- Buffer contents are not modelled where the source leaves them undefined. This covers fresh `RasterData` buffers (Dafny zero-initialises them) and the pixels of a freshly created output band (empty until a band is copied in).
- No-data values and geotransform coefficients are opaque 64-bit patterns (`bv64`). No floating-point arithmetic happens on them.
- DatasetModel.Created: new bands never declare a no-data value. So `MergeSpec` states the output band's no-data value as equal to the source's, rather than as "set iff the source declares one".
- DatasetManagement.MergeSpec: the output's own domain list is not updated by `SetMetadata`. Its `domainList` stays `None`, and only the per-domain contents are stated.
- MergeTiffCli.MergeTiffSpec, and the merge methods beneath it: `createMergedDataset` requires a non-empty list of non-null bands. The tool classifies an empty band list, or any null band reaching the merge, as `UndefinedBehaviour` before the merge starts. This is coarser than the C++, where a type-mismatch error raised before the null band is dereferenced would be reported first.
- Log output other than the "Error: " line is not modelled: the usage text and "Created merged dataset".
- Raster.RasterData: `uint64_t` dimensions are `nat` values below 2^64, and their product is required to stay below 2^64. Overflow of `channels*rows*cols` in the C++ is not modelled.

## Findings

| source | as written | input that shows it | evidently intended | confidence | as-written member | corrected member |
|---|---|---|---|---|---|---|
| source/lib/DatasetManagement.h:139-143 | the colour loops in `datasetFromRaster` and `wrapRasterData` (also lines 180-184) start at `index = 1` and set band `index+1`, so band 1 is never assigned and `interps[0]` (Red) is unreachable | a 3-channel buffer, not forced gray: the bands come out as (unchanged, Green, Blue) | every band gets the heuristic for its 0-based index, so 3 channels give Red, Green, Blue and 4 give Red, Green, Blue, Alpha | high (not executed) | DatasetManagement.RgbBufferAsWritten | DatasetManagement.AssignColourInterpretationsFromFirst |
