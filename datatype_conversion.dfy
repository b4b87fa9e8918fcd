/**
 * The closed mapping from the C++ primitive pixel types to GDAL datatype
 * tags (`primitiveToGdal` and its seven specialisations).
 */
module DatatypeConversion {
  import opened Wrappers
  import opened Errors

  /** C++ primitive element types; every type without a specialisation is `OtherPrimitive`. */
  datatype Primitive =
    | UInt8 | UInt16 | Int16 | UInt32 | Int32 | Float | Double
    | OtherPrimitive(name: string)

  /** GDAL datatype tags (`GDALDataType`). */
  datatype GdalType =
    | GdtUnknown | GdtByte | GdtInt8 | GdtUInt16 | GdtInt16 | GdtUInt32 | GdtInt32
    | GdtUInt64 | GdtInt64 | GdtFloat32 | GdtFloat64
    | GdtCInt16 | GdtCInt32 | GdtCFloat32 | GdtCFloat64

  /** The seven primitive types that have a specialisation. */
  predicate IsSupported(p: Primitive) {
    !p.OtherPrimitive?
  }

  /** The seven tags that some specialisation returns. */
  const SupportedTags: set<GdalType> :=
    {GdtByte, GdtUInt16, GdtInt16, GdtUInt32, GdtInt32, GdtFloat32, GdtFloat64}

  /**
   * `primitiveToGdal<PrimitiveTy>()`: the tag of a specialised type; the
   * unspecialised template raises "unsupported primitive type".
   */
  function PrimitiveToGdal(p: Primitive): (r: Result<GdalType, Error>)
    ensures r.Failure? <==> !IsSupported(p)
    ensures r.Failure? ==> r.error == UnsupportedPrimitive
    ensures r.Success? ==> r.value in SupportedTags
  {
    match p
    case UInt8 => Success(GdtByte)
    case UInt16 => Success(GdtUInt16)
    case Int16 => Success(GdtInt16)
    case UInt32 => Success(GdtUInt32)
    case Int32 => Success(GdtInt32)
    case Float => Success(GdtFloat32)
    case Double => Success(GdtFloat64)
    case OtherPrimitive(_) => Failure(UnsupportedPrimitive)
  }

  /** Distinct supported primitives get distinct tags. */
  lemma PrimitiveToGdalInjective(p: Primitive, q: Primitive)
    requires IsSupported(p) && IsSupported(q)
    requires PrimitiveToGdal(p) == PrimitiveToGdal(q)
    ensures p == q
  {
  }

  /** Every supported tag is reached: the seven types cover the seven tags. */
  lemma PrimitiveToGdalOnto(t: GdalType)
    requires t in SupportedTags
    ensures exists p :: IsSupported(p) && PrimitiveToGdal(p) == Success(t)
  {
    var p := match t
      case GdtByte => UInt8
      case GdtUInt16 => UInt16
      case GdtInt16 => Int16
      case GdtUInt32 => UInt32
      case GdtInt32 => Int32
      case GdtFloat32 => Float
      case _ => Double;
    assert PrimitiveToGdal(p) == Success(t);
  }

  /** In C++ terms: the width in bytes of each supported primitive (`sizeof`). */
  function ElementSize(p: Primitive): (size: nat)
    requires IsSupported(p)
    ensures size in {1, 2, 4, 8}
    ensures size == 1 <==> p == UInt8
    ensures size == 8 <==> p == Double
  {
    match p
    case UInt8 => 1
    case UInt16 => 2
    case Int16 => 2
    case UInt32 => 4
    case Int32 => 4
    case Float => 4
    case Double => 8
  }
}
