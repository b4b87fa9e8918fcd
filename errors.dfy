/**
 * The runtime errors the library and the command-line tool raise, and the
 * exact message text each one carries (the string handed to the
 * `std::runtime_error` constructor).
 */
module Errors {

  datatype Error =
    | UnsupportedPrimitive            // primitive type without a GDAL tag
    | UnsupportedGdalType             // GDAL tag outside the seven dispatched types
    | InvalidBandIndex(index: nat)    // requested band beyond the band count
    | InvalidDatatype                 // merge inputs disagree with the expected tag
    | DriverUnavailable               // the GeoTIFF driver is not registered
    | OutputCreateFailed(filename: string)
    | InputOpenFailed(filename: string)
    | InvalidBandSpec                 // a band specifier piece is not a number

  /** The value of a decimal digit character (0 for any other character). */
  function DigitValue(c: char): nat {
    if '0' <= c <= '9' then (c as int) - ('0' as int) else 0
  }

  /** The number a string of decimal digits denotes, most significant first. */
  function DecimalValue(s: string): nat
    decreases |s|
  {
    if |s| == 0 then 0 else 10 * DecimalValue(s[..|s| - 1]) + DigitValue(s[|s| - 1])
  }

  /**
   * Decimal rendering of a natural number, as `std::to_string` prints it:
   * the digits denote n, with no leading zero.
   */
  function NatToString(n: nat): (s: string)
    ensures |s| > 0
    ensures forall i :: 0 <= i < |s| ==> '0' <= s[i] <= '9'
    ensures DecimalValue(s) == n
    ensures n == 0 || s[0] != '0'
    ensures n < 10 <==> |s| == 1
    decreases n
  {
    var digit := [(('0' as int) + n % 10) as char];
    if n < 10 then digit
    else
      var prefix := NatToString(n / 10);
      assert (prefix + digit)[..|prefix + digit| - 1] == prefix;
      prefix + digit
  }

  /** The message text of each error. */
  function Message(e: Error): string {
    match e
    case UnsupportedPrimitive => "unsupported primitive type"
    case UnsupportedGdalType => "unsupported GDAL datatype"
    case InvalidBandIndex(n) => "invalid band index " + NatToString(n)
    case InvalidDatatype => "invalid datatype in one or more raster bands"
    case DriverUnavailable => "failed to retrieve the GDAL GeoTiff driver handle"
    case OutputCreateFailed(f) => "failed to open output dataset \"" + f + "\""
    case InputOpenFailed(f) => "failed to open input dataset \"" + f + "\""
    case InvalidBandSpec => "invalid band specifier string"
  }
}
